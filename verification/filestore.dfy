/**
 The filestore closure (lib/filestore.js:10-96) as a sequential state machine.

 The closure's private variables and the store's public knobs form one immutable
 `Store`; each way in (construction, `save`, the completion of the outstanding
 `fs.appendFile`) is a pure function returning the next store together with the
 effects it produced, in order: appends issued, events emitted and callbacks
 invoked. `byteLength` stands for `Buffer.byteLength` and is a parameter.
 */
module Filestore {
  import opened Batch

  datatype Option<+T> = None | Some(value: T)

  /** A truthy error value reported by the append primitive. A falsy completion
      argument (`null`, `undefined`) is `None`. */
  type ErrorValue = string

  /** What a `cbQueue` slot holds when it is not empty: the callback the
      constructor queues with the initial empty append, which emits `ready`, or
      a caller's `save` callback, known by an identifier. */
  datatype Callback = ReadyCallback | UserCallback(id: nat)

  /** Events the store emits. `Error(None)` is the argument-less error of an
      oversized record. */
  datatype Event = Ready(readyErr: Option<ErrorValue>) | Drain | Error(cause: Option<ErrorValue>)

  datatype Effect =
    | Append(file: string, data: string)
    | Emit(event: Event)
    | Invoke(id: nat, err: Option<ErrorValue>)

  /** The module-level defaults `filestore.defaultBufferSize`,
      `filestore.defaultDelimiter` and `filestore.defaultAllowAnatomicWrites`,
      read once by the constructor. */
  datatype Defaults = Defaults(bufferSize: int, delimiter: string, allowAnatomicWrites: bool)

  /** The values the module ships with. */
  const InitialDefaults := Defaults(4096, "\n", true)

  datatype Store = Store(
    file: string,
    delimiter: string,
    bufferSize: int,
    allowAnatomicWrites: bool,
    queue: seq<string>,
    cbQueue: seq<Option<Callback>>,
    midFlush: bool,
    inFlight: seq<Option<Callback>>  // the `callbacks` the pending completion closure holds
  )

  /** One step's outcome: the next store, the effects in the order they happen,
      and the queue entries taken by the append the step issued (empty when it
      issued none). */
  datatype Step = Step(store: Store, effects: seq<Effect>, dispatched: seq<string>)

  /** The invariant every reachable store keeps: the two queues are pushed and
      spliced together, and an idle store holds no callbacks and has nothing
      queued, because any entry queued while idle is dispatched at once. */
  predicate Valid(s: Store)
  {
    && |s.queue| == |s.cbQueue|
    && (!s.midFlush ==> |s.queue| == 0 && |s.inFlight| == 0)
  }

  /** An append is outstanding: its batch's callback slots are held (a batch is
      never empty, so neither is its list of slots). */
  predicate Outstanding(s: Store)
  {
    |s.inFlight| > 0
  }

  /** Inside the completion handler, after the listeners and callbacks have
      run and before `midFlush` is cleared: still busy, nothing outstanding. */
  predicate Settling(s: Store)
  {
    s.midFlush && |s.inFlight| == 0
  }

  /** The per-store configuration is not touched by construction-time, save or
      completion logic. */
  predicate SameConfig(s: Store, t: Store)
  {
    && t.file == s.file
    && t.delimiter == s.delimiter
    && t.bufferSize == s.bufferSize
    && t.allowAnatomicWrites == s.allowAnatomicWrites
  }

  /** The callback slot `save` pushes for an optional callback. */
  function SlotOf(cb: Option<nat>): Option<Callback>
  {
    match cb
    case None => None
    case Some(id) => Some(UserCallback(id))
  }

  /** The callbacks actually present in a list of slots, in order. */
  function Present(slots: seq<Option<Callback>>): seq<Callback>
    decreases |slots|
  {
    if |slots| == 0 then []
    else (match slots[0] case None => [] case Some(c) => [c]) + Present(slots[1..])
  }

  /** The callback an effect is the invocation of, if it is one. */
  function NotificationOf(e: Effect): seq<Callback>
  {
    match e
    case Emit(Ready(_)) => [ReadyCallback]
    case Invoke(id, _) => [UserCallback(id)]
    case _ => []
  }

  /** The callbacks invoked by a run of effects, in order. */
  function Notified(effects: seq<Effect>): seq<Callback>
    decreases |effects|
  {
    if |effects| == 0 then [] else NotificationOf(effects[0]) + Notified(effects[1..])
  }

  /** The completion handler's `callbacks.forEach`: each present callback is
      invoked with the completion's error; the ready callback does so by
      emitting `ready`. */
  function Notify(slots: seq<Option<Callback>>, err: Option<ErrorValue>): (r: seq<Effect>)
    ensures Notified(r) == Present(slots)
    ensures forall k :: 0 <= k < |r| ==>
      || r[k] == Emit(Ready(err))
      || (r[k].Invoke? && r[k].err == err)
    decreases |slots|
  {
    if |slots| == 0 then []
    else
      var head := match slots[0]
        case None => []
        case Some(ReadyCallback) => [Emit(Ready(err))]
        case Some(UserCallback(id)) => [Invoke(id, err)];
      var tail := Notify(slots[1..], err);
      NotifiedConcat(head, tail);
      head + tail
  }

  lemma {:induction false} NotifiedConcat(a: seq<Effect>, b: seq<Effect>)
    ensures Notified(a + b) == Notified(a) + Notified(b)
    decreases |a|
  {
    if |a| > 0 {
      assert (a + b)[1..] == a[1..] + b;
      NotifiedConcat(a[1..], b);
    } else {
      assert a + b == b;
    }
  }

  lemma {:induction false} PresentConcat(a: seq<Option<Callback>>, b: seq<Option<Callback>>)
    ensures Present(a + b) == Present(a) + Present(b)
    decreases |a|
  {
    if |a| > 0 {
      assert (a + b)[1..] == a[1..] + b;
      PresentConcat(a[1..], b);
    } else {
      assert a + b == b;
    }
  }

  /** `if (err) store.emit("error", err)`. */
  function ErrorSignal(err: Option<ErrorValue>): seq<Effect>
  {
    if err.Some? then [Emit(Error(err))] else []
  }

  /** `flush()`: a no-op while an append is outstanding; `drain` on an empty
      queue; otherwise take the batch off both queues and issue one append of
      the joined entries. */
  function Flush(s: Store, byteLength: string -> nat): (r: Step)
    requires |s.queue| == |s.cbQueue|
    requires !s.midFlush ==> |s.inFlight| == 0
    ensures SameConfig(s, r.store)
    ensures s.midFlush ==> r.store == s && r.effects == [] && r.dispatched == []
    ensures !s.midFlush && |s.queue| == 0 ==>
      r.store == s && r.effects == [Emit(Drain)] && r.dispatched == []
    ensures !s.midFlush && |s.queue| > 0 ==>
      && IsBatch(s.queue, |r.dispatched|, s.bufferSize, byteLength)
      && r.dispatched + r.store.queue == s.queue
      && r.store.inFlight + r.store.cbQueue == s.cbQueue
      && |r.store.inFlight| == |r.dispatched|
      && r.store.midFlush
      && r.effects == [Append(s.file, Join(r.dispatched))]
  {
    if s.midFlush then Step(s, [], [])
    else if |s.queue| == 0 then Step(s, [Emit(Drain)], [])
    else
      var n := SelectBatch(s.queue, s.bufferSize, byteLength);
      assert s.queue[..n] + s.queue[n..] == s.queue;
      assert s.cbQueue[..n] + s.cbQueue[n..] == s.cbQueue;
      Step(s.(queue := s.queue[n..], cbQueue := s.cbQueue[n..], midFlush := true, inFlight := s.cbQueue[..n]),
           [Append(s.file, Join(s.queue[..n]))],
           s.queue[..n])
  }

  /** `filestore(file)`: the defaults are copied into the store, the empty string
      is queued with the ready-emitting callback, and the queue is flushed, so
      the first effect is an append of "" to the file. */
  function Construct(file: string, defaults: Defaults, byteLength: string -> nat): (r: Step)
    ensures Valid(r.store)
    ensures r.effects == [Append(file, "")]
    ensures r.dispatched == [""]
    ensures r.store.midFlush && r.store.inFlight == [Some(ReadyCallback)]
    ensures r.store.queue == [] && r.store.cbQueue == []
    ensures r.store.file == file
    ensures r.store.delimiter == defaults.delimiter
    ensures r.store.bufferSize == defaults.bufferSize
    ensures r.store.allowAnatomicWrites == defaults.allowAnatomicWrites
  {
    var s := Store(file, defaults.delimiter, defaults.bufferSize, defaults.allowAnatomicWrites,
                   [""], [Some(ReadyCallback)], false, []);
    Flush(s, byteLength)
  }

  /** The oversized-record test of `save`. */
  predicate Rejected(s: Store, obj: string, byteLength: string -> nat)
  {
    !s.allowAnatomicWrites && byteLength(obj + s.delimiter) > s.bufferSize
  }

  /** `store.save(obj, cb)`. */
  function Save(s: Store, obj: string, cb: Option<nat>, byteLength: string -> nat): (r: Step)
    requires Valid(s)
    ensures Valid(r.store) && SameConfig(s, r.store)
    // an oversized record under the reject policy: one argument-less error, nothing else
    ensures Rejected(s, obj, byteLength) ==>
      r.store == s && r.effects == [Emit(Error(None))] && r.dispatched == []
    // an accepted record raises no event at all
    ensures !Rejected(s, obj, byteLength) ==> forall k :: 0 <= k < |r.effects| ==> !r.effects[k].Emit?
    // while an append is outstanding the record only joins the queue
    ensures !Rejected(s, obj, byteLength) && s.midFlush ==>
      && r.effects == [] && r.dispatched == []
      && r.store.queue == s.queue + [obj + s.delimiter]
      && r.store.cbQueue == s.cbQueue + [SlotOf(cb)]
      && r.store.inFlight == s.inFlight
      && r.store.midFlush
    // on an idle store the record, with the store's delimiter, is appended at once on its own
    ensures !Rejected(s, obj, byteLength) && !s.midFlush ==>
      && r.effects == [Append(s.file, obj + s.delimiter)]
      && r.dispatched == [obj + s.delimiter]
      && r.store.queue == [] && r.store.cbQueue == []
      && r.store.inFlight == [SlotOf(cb)]
      && r.store.midFlush
  {
    if Rejected(s, obj, byteLength) then Step(s, [Emit(Error(None))], [])
    else
      Flush(s.(queue := s.queue + [obj + s.delimiter], cbQueue := s.cbQueue + [SlotOf(cb)]), byteLength)
  }

  /** The first part of the completion handler: `error` when `err` is truthy,
      then every held callback with `err`. `midFlush` is still set, so calls
      the listeners and callbacks make on the store find it busy. */
  function Report(s: Store, err: Option<ErrorValue>): (r: Step)
    requires Valid(s) && Outstanding(s)
    ensures Valid(r.store) && SameConfig(s, r.store) && Settling(r.store)
    ensures r.store.queue == s.queue && r.store.cbQueue == s.cbQueue && r.dispatched == []
    ensures r.effects == ErrorSignal(err) + Notify(s.inFlight, err)
  {
    Step(s.(inFlight := []), ErrorSignal(err) + Notify(s.inFlight, err), [])
  }

  /** The last part of the completion handler: `midFlush` is cleared and the
      queue, as the listeners and callbacks left it, is flushed. */
  function Resume(s: Store, byteLength: string -> nat): (r: Step)
    requires Valid(s) && Settling(s)
    ensures Valid(r.store) && SameConfig(s, r.store)
    ensures |s.queue| == 0 ==>
      && r.effects == [Emit(Drain)] && r.dispatched == []
      && !r.store.midFlush && r.store.queue == [] && r.store.inFlight == []
    ensures |s.queue| > 0 ==>
      && r.effects == [Append(s.file, Join(r.dispatched))]
      && IsBatch(s.queue, |r.dispatched|, s.bufferSize, byteLength)
      && r.dispatched + r.store.queue == s.queue
      && r.store.inFlight + r.store.cbQueue == s.cbQueue
      && Outstanding(r.store) && r.store.midFlush
  {
    Flush(s.(midFlush := false), byteLength)
  }

  /** The whole completion handler when its listeners and callbacks make no
      call on the store: `Report` then `Resume`. */
  function AppendDone(s: Store, err: Option<ErrorValue>, byteLength: string -> nat): (r: Step)
    requires Valid(s) && Outstanding(s)
    ensures Valid(r.store) && SameConfig(s, r.store)
    ensures |s.queue| == 0 ==>
      && r.effects == ErrorSignal(err) + Notify(s.inFlight, err) + [Emit(Drain)]
      && r.dispatched == []
      && !r.store.midFlush && r.store.queue == [] && r.store.inFlight == []
    ensures |s.queue| > 0 ==>
      && r.effects == ErrorSignal(err) + Notify(s.inFlight, err) + [Append(s.file, Join(r.dispatched))]
      && IsBatch(s.queue, |r.dispatched|, s.bufferSize, byteLength)
      && r.dispatched + r.store.queue == s.queue
      && r.store.inFlight + r.store.cbQueue == s.cbQueue
      && Outstanding(r.store) && r.store.midFlush
  {
    var reported := Report(s, err);
    var resumed := Resume(reported.store, byteLength);
    Step(resumed.store, reported.effects + resumed.effects, resumed.dispatched)
  }
}
