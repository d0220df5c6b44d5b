# filestore — a Dafny model of the write-coalescing append engine

`filestore(file)` returns a store whose `save(obj, cb)` appends `obj` plus a
delimiter to `file`. While one `fs.appendFile` call is outstanding, further
saves queue up. When it completes, the queued records are appended in one
batch, limited by `store.bufferSize`. The store emits `ready` after the
initial empty append, `drain` when an append completes with nothing left to
write, and `error` for failed appends and for records too large under
`allowAnatomicWrites = false`.

The model turns the closure in `lib/filestore.js` into a sequential state
machine with immutable state.

- **`Batch` (`batch.dfy`)** covers how many queued entries one append takes
  (the greedy loop in `flush`) and how they become one string (`join()`).
  - `Measured` is the running total the loop keeps. The head entry counts by
    its string length; every later entry counts by `byteLength`.
  - `IsBatch` is the independent characterisation: a non-empty prefix that
    fits the budget unless it is the head alone, and that stops only where
    the next entry would exceed the budget.
  - `SelectBatch`, the functional loop, and `SelectBatchLoop`, the loop
    statement for statement, both produce the one prefix `IsBatch` allows.
- **`Filestore` (`filestore.dfy`)** holds the store state and its three
  entry points.
  - `Store` holds the file, the delimiter captured at construction, the two
    public knobs, `queue`, `cbQueue`, `midFlush`, and the callbacks the
    pending completion closure holds (`inFlight`).
  - The entry points are `Construct`, `Save`, and the completion of the
    outstanding `fs.appendFile` in two parts. `Report` emits `error` and runs
    the batch's callbacks while `midFlush` is still set. `Resume` clears
    `midFlush` and flushes. Calls that listeners and callbacks make on the
    store fall between the two. `AppendDone` is both parts back to back,
    for callbacks that make no such calls.
  - Each returns the next store, the effects in the order they happen, and
    the entries the issued append took. The effects are appends, events
    emitted and callbacks invoked.
  - `Valid` is the reachable-state invariant they preserve. `Outstanding`
    (callbacks held) marks an append in flight. `Settling` (mid-flush with
    none held) marks the window between `Report` and `Resume`.
- **`Sessions` (`sessions.dfy`)** models whole lifetimes.
  - An `Input` is a save, a completion, the resumption of the completion
    handler, or an assignment to `store.bufferSize` or
    `store.allowAnatomicWrites`.
  - `Run` folds a schedule of inputs.
  - `Session` is construction followed by a run.
  - Per-step lemmas lift to whole runs: FIFO order, exactly-once callbacks,
    single flight, the error count, and exactly one drain per busy period
    that ends.
  - Scenario lemmas replay some cases of `test/test-filestore.js` and follow
    the code through the batch budget and through saves made from a listener.

`Buffer.byteLength` is the parameter `byteLength: string -> nat`, so every
result holds for any byte measure. The module defaults are passed to the
constructor as a `Defaults` value. The initial values are in `InitialDefaults`.

The model follows the code in these points, some of which a user of the
library might not expect:
- Entries of a batch are joined with "," (`Array.prototype.join` with no
  argument), not concatenated.
- On a failed append, `error` is emitted before the batch's callbacks run.
- The delimiter is read from the module default once per store, at
  construction, not once per record.
- The first save on an idle store is appended alone at once. Only saves made
  while the store is busy are grouped, so the budget applies to backlogs.
  Saves made from the completion's `error` listeners, from `ready` listeners
  or from save callbacks count as busy: they join the next batch, and no
  `drain` comes between. A save made from the `error` listener of a rejected
  record finds the store as it was, so on an idle store it is appended at once.
- Oversized records are rejected with an `error` event that carries no
  argument.

## Model

| member | source | states |
|---|---|---|
| Batch.Measured | lib/filestore.js:60-64 | No contract of its own: the running total, with the head entry counted by string length and later entries by `byteLength`. `MeasuredMonotone` and `IsBatch` state what the loop needs of it. |
| Batch.SelectBatch | lib/filestore.js:59-66 | For a non-empty queue, the number of entries taken satisfies `IsBatch`: at least one entry; the batch fits the budget if it has more than one entry; and it stops only where the next entry would exceed the budget. |
| Batch.SelectFrom | lib/filestore.js:62-66 | From any point the loop can reach (n entries measured so far, within budget when n > 1), continuing the loop ends at an `IsBatch` count of at least n. |
| Batch.SelectBatchLoop | lib/filestore.js:46-66 | The `while` loop with its counter and running total computes a count satisfying `IsBatch`, and it equals `SelectBatch`. |
| Batch.BatchUnique | lib/filestore.js:62-66 | At most one count satisfies `IsBatch` for a given queue, budget and measure, so the greedy choice is the only one. |
| Batch.BatchMaximal | lib/filestore.js:62-63 | Every longer prefix than the batch is measured over the budget. |
| Batch.BatchPrefixesFit | lib/filestore.js:62-64 | Every shorter prefix of two or more entries is within the budget. |
| Batch.OversizedHeadAlone | lib/filestore.js:60-63 | A head entry whose string length exceeds the budget is appended on its own. |
| Batch.WholeQueueFits | lib/filestore.js:62-66 | When the whole queue's measure is within the budget, one append takes all of it. |
| Batch.MeasuredMonotone | lib/filestore.js:60-64 | The running total never decreases as entries are added. |
| Batch.Join | lib/filestore.js:69 | No contract of its own: `join()` with the default "," separator. `JoinLength` and `SplitJoin` characterise it. |
| Batch.JoinLength | lib/filestore.js:69 | The joined string is as long as the entries plus one separator between each pair of neighbours. |
| Batch.SplitJoin | lib/filestore.js:69 | When no entry contains ",", cutting the appended string at commas gives the batch back. |
| Filestore.Notify | lib/filestore.js:75-79 | The callbacks invoked are exactly the present slots, in order: empty slots are skipped, and each invocation carries the completion's error. |
| Filestore.ErrorSignal | lib/filestore.js:72-74 | No contract of its own: one `error` event carrying the error when it is truthy, else nothing. `ErrorSignalEffects` counts it and `Report` puts it before the callbacks. |
| Filestore.Rejected | lib/filestore.js:87-88 | No contract of its own: the record plus the store's delimiter is over the budget by `byteLength`, and anatomic writes are disallowed. `Save`'s contract and `StepErrors` state its consequences. |
| Filestore.Flush | lib/filestore.js:44-83 | While mid-flush nothing happens. With an empty queue, `drain` is emitted and nothing else happens. Otherwise an `IsBatch` prefix leaves both queues together, its callbacks become held, the store is mid-flush, and exactly one append of the joined prefix is issued. |
| Filestore.Construct | lib/filestore.js:10-42 | A new store issues one append of "" to its file. The ready callback is held for that append. Nothing else is queued, and the delimiter, budget and policy are the defaults of the moment. |
| Filestore.Save | lib/filestore.js:85-95 | An oversized record under the reject policy emits one argument-less `error` and changes nothing. An accepted record raises no event. While busy, the record (with the delimiter) and its callback only join the queue tails. While idle, the record is appended at once, alone. The store stays valid. |
| Filestore.Report | lib/filestore.js:71-79 | For an outstanding append, the effects are `error` when the error is truthy, then every held callback with the error. The queues are unchanged, no callback stays held, and the store is still mid-flush, so calls made meanwhile find it busy. |
| Filestore.Resume | lib/filestore.js:80-81 | Once the callbacks have run, clearing `midFlush` and flushing gives `drain` and an idle store if the queue, as the callbacks left it, is empty. Otherwise it gives one append of the next `IsBatch` prefix, taken off both queues, with that prefix's callbacks held. |
| Filestore.AppendDone | lib/filestore.js:71-82 | With callbacks that make no calls on the store, the completion gives `error` when the error is truthy, then every held callback with the error. It then gives either `drain` (with an empty queue, leaving the store idle) or one append of the next `IsBatch` prefix taken off both queues. |
| Sessions.SaveEffects | lib/filestore.js:85-95 | `save` invokes no callback and never drains. It issues an append only of what it dispatched, and emits `error` exactly when the record is rejected. |
| Sessions.ReportEffects | lib/filestore.js:71-79 | Reporting a completion invokes exactly the held callbacks, issues no append, emits no `drain`, and emits one `error` exactly when the error is truthy. |
| Sessions.ResumeEffects | lib/filestore.js:80-81 | Resuming invokes no callback and emits no `error`. It emits `drain` exactly when the queue it finds is empty, and otherwise appends only the batch it dispatched. |
| Sessions.StepQueue | lib/filestore.js:50-69 | For any input: what leaves the queue is its head and what joins goes to its tail. The append issued, if any, carries the joined dispatched entries. A new append is issued only when none is outstanding after the previous one completes. |
| Sessions.StepCallbacks | lib/filestore.js:68-79 | Only a completion invokes callbacks, exactly those of its batch. Callbacks invoked plus callbacks still held equal the callbacks held before plus the one just registered. |
| Sessions.StepDrain | lib/filestore.js:54-57 | A step emits `drain` exactly when it is the resumption of a completion handler and finds the queue empty, as the callbacks left it. Drains plus busy-after equal busy-before plus one if the step is a save accepted by an idle store, so drains and busy periods match one for one. |
| Sessions.StepErrors | lib/filestore.js:72-90 | A step emits one `error` exactly when it is a failed completion or a rejected oversized save, and no error otherwise. |
| Sessions.RunQueueOrder | lib/filestore.js:68-69 | Over any schedule, the batches taken, flattened and followed by what is still queued, equal the initial queue followed by every accepted record in submission order. |
| Sessions.RunAppends | lib/filestore.js:69-71 | Over any schedule, the appends issued carry, in order, the joined batches, and every batch is non-empty. |
| Sessions.RunCallbacks | lib/filestore.js:68-79 | Over any schedule, callbacks invoked followed by callbacks still held equal callbacks held at the start followed by callbacks registered, in order: each callback is invoked once and in FIFO order. |
| Sessions.RunSingleFlight | lib/filestore.js:50-52 | Appends issued plus the one outstanding at the start equal completions received plus the one outstanding at the end, so at most one append is ever in flight. |
| Sessions.RunErrors | lib/filestore.js:72-90 | Over any schedule, the `error` events number exactly the failed completions plus the saves that were not accepted. |
| Sessions.RunDrains | lib/filestore.js:54-57 | Over any schedule, drains plus one if the store ends busy equal one if it started busy plus the saves accepted by an idle store: exactly one `drain` per busy period that ends. There are no more drains than resumptions, and no more than the records accepted allow. |
| Sessions.SessionStart | lib/filestore.js:35-40 | A store's first effect is the append of "" to its file, and its delimiter is the default at construction. |
| Sessions.SessionSingleFlight | lib/filestore.js:50-52 | Over a store's life, the appends issued equal the completions received plus one if an append is outstanding. |
| Sessions.SessionOrder | lib/filestore.js:36-69 | The batches appended over a store's life are "" followed by the accepted records in order, then what is still queued. Once idle, every accepted record has been appended. |
| Sessions.SessionAppends | lib/filestore.js:69-71 | Every append over a store's life carries one non-empty batch, joined, in the order taken. |
| Sessions.SessionCallbacks | lib/filestore.js:37-39 | The ready callback and then every registered save callback are each invoked once, in that order, or are still held. Once idle, all have been invoked. |
| Sessions.SessionDrains | lib/filestore.js:35-57 | Over a store's life, the `drain` events plus one if the store is still busy equal one (construction's busy period) plus the saves accepted by an idle store. So they are at least one, and at most one more than the records accepted. |
| Sessions.ConstructionScenario | test/test-filestore.js:71-127 | With the initial defaults the store has delimiter "\n", budget 4096 and anatomic writes allowed. Construction appends "". Its completion emits `error` only on failure, then `ready` with the error, then `drain`, leaving an idle store configured from the defaults. |
| Sessions.SingleDrainScenario | test/test-filestore.js:240-248 | Two saves on an idle store go out in two appends, the second after the first completes, and only the last completion emits `drain`. |
| Sessions.QueueBeforeReady | lib/filestore.js:85-95 | Saves made before the empty append completes emit nothing. They queue the delimited records and callbacks in order. |
| Sessions.BudgetFirstBatch | lib/filestore.js:59-69 | With three queued records where the second fits the budget after the first and the third does not, a completion appends the first two joined by ",". The third stays queued with its callback, and the first two callbacks become held. |
| Sessions.BudgetLastBatch | lib/filestore.js:71-81 | Completing the two-record batch invokes exactly its two callbacks and appends the third record. Completing that invokes the third callback and drains. |
| Sessions.BudgetScenario | lib/filestore.js:35-81 | Three saves before `ready`, of which two fit the budget: `ready`, then one comma-joined append of the first two, then the third alone. Each callback fires only when its own batch completes. |
| Sessions.ReadyListenerSaves | lib/filestore.js:71-81 | Two saves made from the `ready` listener only queue. No `drain` follows `ready`, and resuming appends both records in one comma-joined append. |
| Sessions.OversizedScenario | test/test-filestore.js:254-264 | Under the reject policy, an oversized save emits `error` at once even while another append is in flight. It is not queued, and its callback is never invoked. |

## Left out

- File I/O: `fs.appendFile` is modelled by the `Append` effect and by the `Completion` input, which carries its error, followed by `Resumption`. Files, their contents and the timing of completions are not modelled. A schedule may deliver a completion at any point after its append was issued.
- `Buffer.byteLength` is the parameter `byteLength`, not a UTF-8 encoder. Strings are sequences of characters with no encoding.
- Batch.Measured: counts the head entry by `|queue[0]|`, the number of Unicode scalar values. `queue[0].length` counts UTF-16 code units, so the two differ for characters outside the Basic Multilingual Plane (each emoji counts 2 in the source and 1 here).
- Callbacks and listeners are assumed to return normally. In the source, a throwing callback aborts the `forEach`, so the batch's later callbacks never run, and `midFlush` is never cleared: no further append and no `drain`. The model has no such outcome, so the exactly-once claims of `RunCallbacks` and `SessionCallbacks` hold only for callbacks that return.
- Sessions.Run: applies a call made from inside a listener or callback after the whole `Report` step. A rejection `error` raised by such a call therefore appears after all of the batch's callbacks, not between them. The store state is the same either way.
- The EventEmitter plumbing (copying the prototype methods, the no-op `error` listener, `once("ready", cb)`) is not modelled. The model records which events are emitted, with what arguments and in what order. The `store` argument of `ready` is dropped.
- JavaScript coercion of `obj` in `obj + delimiter` is not modelled: records are strings.
- Error values are reduced to truthy or falsy. A falsy completion argument is `None` and a truthy one is `Some(message)`.
- Callback functions are identified by a number. A falsy `cb` is `None` and leaves an empty slot in `cbQueue`.
- The mutable module defaults (`filestore.defaultBufferSize` and the others) are a `Defaults` value given to `Construct`. Changing them after construction has no effect on a store, which the model reflects by construction.
- Filestore.Report: requires an outstanding append, and `Resume` requires a completion that has reported. The append primitive never calls back otherwise, and `Run` returns `None` for such a schedule instead of modelling it.
- Nothing about `bufferSize` values other than integers (such as `NaN`) is modelled.
