# Workload consumption aggregator — a Dafny model

The aggregator reads a batch of workload lifecycle events. Each event is a
JSON object with `workloadId`, `customerId`, `timestamp` and `eventType`. It
reports, for each customer, the summed runtime (`stop - start`) of that
customer's workloads. The core is `process_data` (two passes over the
events), `format_result` (wraps the totals as `{'result': [...]}`), and the
early exit in `main` when no events arrived.

The model, module by module:

- `Values`: `Option`, and `Scalar`. `Scalar` stands for the value
  `event.get(key)` yields: `None` (missing key or JSON null), an `int`, or a
  `str`.
- `Seqs`: distinctness, and order-preserving de-duplication (`Dedup`).
- `Dict`: Python's insertion-ordered `dict` as an association list. `Put`
  keeps an existing key in place and appends a new one.
- `Events`: the event, and the workload record with its three keys (`start`,
  `stop`, `customerId`). `Assign` is `record[event_type] = timestamp`.
- `Workloads`: the first pass (`Observe` is one iteration, `Collect` is the
  loop). It also holds `Expected`, an independent description of each record
  computed from the events alone.
- `Consumption`: the second pass (`Visit`, `Tally`) and `ProcessData`. It also
  holds the reference sum `SumFor`, and `Contributors` / `Contributes`, which
  say which customers appear.
- `Reorder`: order independence for a consistent batch.
- `Format`: `FormatResult` and its inverse `Parse`.
- `Driver`: `main` with its I/O turned into a parameter and a result.
- `Scenarios`: concrete batches that pin down edge cases: duplicates, stop
  before start, missing or text timestamps, and the `"customerId"` event type.

A Python `TypeError` is modelled as `Failure(UnsupportedOperand)`. The source
raises it from `stop - start` when a present timestamp is not an `int`.

Where the code and its design description differ, the model follows the code:

- A missing `workloadId` or `customerId` is not reported per event. `event.get`
  yields `None`, and `None` is used as an ordinary key.
- Events of a type other than `start` or `stop` can still matter, in two ways:
  - An event typed `"customerId"` overwrites the workload's customer with its
    timestamp.
  - Any event that is the first one about its workload fixes that workload's
    customer.

## Model

| member | source | states |
|---|---|---|
| Dict.Get | main.py:34 | `d.get(k)` is absent exactly when `k` is not a key of the dictionary |
| Dict.Put | main.py:35-37 | storing under a key keeps an existing key in place or appends a new one, reads back the stored value and leaves every other key unchanged |
| Dict.PutExisting | main.py:37 | overwriting a key already present replaces its pair in place and keeps the order |
| Dict.PutNew | main.py:35 | storing a new key appends it at the end of the iteration order |
| Events.AssignSetsOnlyItsKey | main.py:37 | `record[event_type] = timestamp` sets exactly the named key; other keys are kept, and an untracked type leaves the three read keys unchanged |
| Workloads.Collect | main.py:25-37 | after the first loop, the dictionary holds each workload id once, in order of first sighting |
| Workloads.ObserveUnseen | main.py:34-37 | the first event about a workload appends a record with both timestamps `None`, the event's customer, and the event's field set |
| Workloads.ObserveSeen | main.py:34-37 | a later event updates the existing record in place and does not re-create it |
| Workloads.CollectMatchesExpected | main.py:28-37 | each workload's record is what the events alone describe: the last `start` and last `stop` timestamps (else `None`), and the first event's customer unless a `"customerId"`-typed event overwrote it |
| Workloads.CustomerFixedByFirstEvent | main.py:34-35 | the workload's customer is the first event's `customerId`; later events naming other customers do not reassign it |
| Workloads.LastWriteWins | main.py:37 | a duplicate (workload, type) pair is not an error: the record holds the timestamp of the last such event |
| Workloads.NoEventNoTimestamp | main.py:35-37 | without an event of type `start` (resp. `stop`), the record's start (resp. stop) stays `None` |
| Workloads.UntrackedEventIsNoop | main.py:37 | an event whose type is not `start`, `stop` or `customerId`, about a known workload, leaves the dictionary unchanged |
| Workloads.CollectIgnoresUntracked | main.py:28-37 | appending such an event to the batch leaves the first pass's result unchanged |
| Consumption.Charge | main.py:46 | `+=` on a `defaultdict(int)`: a new customer starts from 0 and is appended; others are untouched |
| Consumption.ChargeUnseen | main.py:46 | the first charge of a customer appends it with exactly the runtime |
| Consumption.ProcessData | main.py:21-48 | an empty batch yields an empty mapping |
| Consumption.TallySpec | main.py:39-48 | the second loop succeeds exactly when every complete record has `int` timestamps; the keys are then the contributing customers in order of first contribution, each with the sum of `stop - start` over its complete records; a customer with no complete record is absent |
| Consumption.ProcessDataSpec | main.py:21-48 | the same statement about `process_data` as a whole, in terms of the events' workload records; the result holds each customer once |
| Consumption.UntrackedEventChangesNoTotal | main.py:37-46 | an event of another type, about a workload already seen, changes no total |
| Reorder.ReorderedBatchSameTotals | main.py:28-46 | in a batch where (workload, type) pairs are unique and each workload has one customer, reordering the events changes neither success nor any customer's total |
| Format.FormatResult | main.py:50-60 | one entry per totals item, in iteration order, with that item's customer and consumption; the envelope reads back as the totals |
| Format.ParseInjective | main.py:54-59 | the formatted envelope is the only one that reads back as the given totals |
| Format.FormattedCustomersDistinct | main.py:55-59 | formatted totals from `process_data` name each customer once |
| Driver.Run | main.py:75-83 | no events: the run stops before sending; otherwise, `process_data` raising ends the run, and if it does not, the formatted totals are what gets sent |
| Scenarios.CompleteWorkloadCharged | main.py:44-46 | a start and a stop charge `stop - start` to the workload's customer: 0 is listed, a negative runtime is not clamped, and timestamp 0 counts as present |
| Scenarios.StopBeforeStart | main.py:28-46 | a stop arriving before its start is paired all the same |
| Scenarios.OnlyStartIsAbsent | main.py:44 | a workload with only a start contributes nothing, and its customer is absent |
| Scenarios.OnlyStopIsAbsent | main.py:44 | a workload with only a stop contributes nothing |
| Scenarios.LaterCustomerIgnored | main.py:34-35 | a later event naming another customer does not move the workload |
| Scenarios.SecondStartWins | main.py:37 | a second start overwrites the first |
| Scenarios.MissingTimestampClears | main.py:31-37 | a start event without a timestamp stores `None`, so the workload no longer counts |
| Scenarios.CustomerIdTypedEventReassigns | main.py:37 | an event typed `"customerId"` moves the workload to the customer named by its timestamp |
| Scenarios.UntrackedFirstEventFixesCustomer | main.py:34-35 | an event of another type that comes first about a workload fixes its customer |
| Scenarios.TwoWorkloadsOneCustomer | main.py:39-46 | two workloads of one customer are summed into one total |
| Scenarios.FirstSightingOrdersCustomers | main.py:34-46 | customers are listed in the order their workloads were first seen |
| Scenarios.TextTimestampRaises | main.py:45 | a text timestamp makes `stop - start` raise `TypeError` |

## Left out

- `get_data` (main.py:8-19) and `send_result` (main.py:62-73): HTTP requests. The events `get_data` would return are the parameter of `Driver.Run`, and a failed fetch is the empty batch. What would be posted is the `Posted` outcome.
- `API_URL` (main.py:6): read from the environment. It only addresses the two endpoints.
- `json.dumps`, and the printing in `get_data`, `send_result` and `main` (main.py:78, 85-89): serialization and console output.
- Event values other than `None`, `int` and `str`, such as floats, booleans, lists or nested objects, and events that are not JSON objects: the model has no `float` arithmetic or mixed `int`/`bool` arithmetic. Where the source would raise `AttributeError` on a non-object event, the model has no such event.
- Keys written by event types other than `start`, `stop` and `customerId`: nothing reads them, so the model's record keeps only the three keys the second loop reads.
- Reorder.ReorderedBatchSameTotals: states equal totals per customer, not equal result lists, because the order of customers in the result follows first sighting and does change with the event order.
