/**
 Whole lifetimes of one store: the inputs its environment delivers (saves,
 completions of the outstanding append, writes to the public knobs), the
 effects they produce, and the properties that hold across any such schedule:
 FIFO dispatch, exactly-once callbacks, single-flight appends, drain and error
 signalling. The last part holds scenarios: some replay cases of
 test/test-filestore.js, the others follow lib/filestore.js step by step.
 */
module Sessions {
  import opened Batch
  import opened Filestore

  /** One thing that can happen to a store. `Completion` is `fs.appendFile`
      calling back, up to the point where the `error` listeners and the
      batch's callbacks have run; `Resumption` is the rest of that handler,
      which clears `midFlush` and flushes. Inputs between the two are calls the
      listeners and callbacks make on the store. The two setters are
      assignments to `store.bufferSize` and `store.allowAnatomicWrites`. */
  datatype Input =
    | SaveRecord(obj: string, cb: Option<nat>)
    | Completion(err: Option<ErrorValue>)
    | Resumption
    | SetBufferSize(size: int)
    | SetAllowAnatomicWrites(allow: bool)

  /** The append primitive only calls back for an append it was given, and the
      completion handler resumes only after it has reported. */
  predicate Enabled(s: Store, i: Input)
  {
    match i
    case Completion(_) => Outstanding(s)
    case Resumption => Settling(s)
    case _ => true
  }

  /** The entry an input adds to the queue. */
  function Enqueued(s: Store, i: Input, byteLength: string -> nat): seq<string>
  {
    if i.SaveRecord? && !Rejected(s, i.obj, byteLength) then [i.obj + s.delimiter] else []
  }

  /** An input that starts a busy period: a save accepted by an idle store. */
  predicate Wakes(s: Store, i: Input, byteLength: string -> nat)
  {
    i.SaveRecord? && !s.midFlush && !Rejected(s, i.obj, byteLength)
  }

  /** The callback an input registers. */
  function Registered(s: Store, i: Input, byteLength: string -> nat): seq<Callback>
  {
    if i.SaveRecord? && !Rejected(s, i.obj, byteLength) then Present([SlotOf(i.cb)]) else []
  }

  /** The data of every append issued, in order. */
  function Appended(effects: seq<Effect>): seq<string>
    decreases |effects|
  {
    if |effects| == 0 then []
    else (if effects[0].Append? then [effects[0].data] else []) + Appended(effects[1..])
  }

  predicate IsDrain(e: Effect) { e == Emit(Drain) }

  predicate IsError(e: Effect) { e.Emit? && e.event.Error? }

  function CountOf(effects: seq<Effect>, p: Effect -> bool): nat
    decreases |effects|
  {
    if |effects| == 0 then 0 else (if p(effects[0]) then 1 else 0) + CountOf(effects[1..], p)
  }

  lemma {:induction false} AppendedConcat(a: seq<Effect>, b: seq<Effect>)
    ensures Appended(a + b) == Appended(a) + Appended(b)
    decreases |a|
  {
    if |a| > 0 {
      assert (a + b)[1..] == a[1..] + b;
      AppendedConcat(a[1..], b);
    } else {
      assert a + b == b;
    }
  }

  lemma {:induction false} CountOfConcat(a: seq<Effect>, b: seq<Effect>, p: Effect -> bool)
    ensures CountOf(a + b, p) == CountOf(a, p) + CountOf(b, p)
    decreases |a|
  {
    if |a| > 0 {
      assert (a + b)[1..] == a[1..] + b;
      CountOfConcat(a[1..], b, p);
    } else {
      assert a + b == b;
    }
  }

  /** Callback invocations are neither appends, drains nor errors. */
  lemma {:induction false} NotifyIsOnlyCallbacks(slots: seq<Option<Callback>>, err: Option<ErrorValue>)
    ensures Appended(Notify(slots, err)) == []
    ensures CountOf(Notify(slots, err), IsDrain) == 0
    ensures CountOf(Notify(slots, err), IsError) == 0
    decreases |slots|
  {
    if |slots| > 0 {
      var r := Notify(slots, err);
      var head := match slots[0]
        case None => []
        case Some(ReadyCallback) => [Emit(Ready(err))]
        case Some(UserCallback(id)) => [Invoke(id, err)];
      assert r == head + Notify(slots[1..], err);
      NotifyIsOnlyCallbacks(slots[1..], err);
      AppendedConcat(head, Notify(slots[1..], err));
      CountOfConcat(head, Notify(slots[1..], err), IsDrain);
      CountOfConcat(head, Notify(slots[1..], err), IsError);
    }
  }

  /** One input applied to a store: what `save`, the completion handler or a
      knob assignment does. */
  function Apply(s: Store, i: Input, byteLength: string -> nat): (r: Step)
    requires Valid(s) && Enabled(s, i)
    ensures Valid(r.store)
    ensures r.store.file == s.file && r.store.delimiter == s.delimiter
  {
    match i
    case SaveRecord(obj, cb) => Save(s, obj, cb, byteLength)
    case Completion(err) => Report(s, err)
    case Resumption => Resume(s, byteLength)
    case SetBufferSize(size) => Step(s.(bufferSize := size), [], [])
    case SetAllowAnatomicWrites(allow) => Step(s.(allowAnatomicWrites := allow), [], [])
  }

  /** The effects of `save`: no callback is invoked, the only append carries
      the dispatched entry, no drain, and an error exactly on rejection. */
  lemma SaveEffects(s: Store, obj: string, cb: Option<nat>, byteLength: string -> nat)
    requires Valid(s)
    ensures var r := Save(s, obj, cb, byteLength);
      && Notified(r.effects) == []
      && Appended(r.effects) == (if r.dispatched == [] then [] else [Join(r.dispatched)])
      && CountOf(r.effects, IsDrain) == 0
      && CountOf(r.effects, IsError) == (if Rejected(s, obj, byteLength) then 1 else 0)
  {
    var r := Save(s, obj, cb, byteLength);
    if !Rejected(s, obj, byteLength) && !s.midFlush {
      assert Join(r.dispatched) == obj + s.delimiter;
    }
  }

  /** The error signal is one error event when `err` is truthy, else nothing. */
  lemma ErrorSignalEffects(err: Option<ErrorValue>)
    ensures Notified(ErrorSignal(err)) == [] && Appended(ErrorSignal(err)) == []
    ensures CountOf(ErrorSignal(err), IsDrain) == 0
    ensures CountOf(ErrorSignal(err), IsError) == (if err.Some? then 1 else 0)
  {
  }

  /** A single effect of the flush that ends a completion: an append or a drain. */
  lemma FlushEffect(e: Effect)
    requires e.Append? || e == Emit(Drain)
    ensures Notified([e]) == [] && CountOf([e], IsError) == 0
    ensures CountOf([e], IsDrain) == (if e.Append? then 0 else 1)
    ensures Appended([e]) == (if e.Append? then [e.data] else [])
  {
    assert [e][1..] == [];
  }

  /** The effects of the reporting part of a completion: the error signal and
      the batch's callbacks, with no append and no drain. */
  lemma ReportEffects(s: Store, err: Option<ErrorValue>)
    requires Valid(s) && Outstanding(s)
    ensures var r := Report(s, err);
      && Notified(r.effects) == Present(s.inFlight)
      && Appended(r.effects) == []
      && CountOf(r.effects, IsDrain) == 0
      && CountOf(r.effects, IsError) == (if err.Some? then 1 else 0)
  {
    var e1 := ErrorSignal(err);
    var e2 := Notify(s.inFlight, err);
    ErrorSignalEffects(err);
    NotifyIsOnlyCallbacks(s.inFlight, err);
    NotifiedConcat(e1, e2);
    AppendedConcat(e1, e2);
    CountOfConcat(e1, e2, IsDrain);
    CountOfConcat(e1, e2, IsError);
  }

  /** The effects of the resuming part: no callback and no error; `drain`
      exactly when the queue, as the callbacks left it, is empty, and otherwise
      one append of the batch it dispatched. */
  lemma ResumeEffects(s: Store, byteLength: string -> nat)
    requires Valid(s) && Settling(s)
    ensures var r := Resume(s, byteLength);
      && Notified(r.effects) == []
      && Appended(r.effects) == (if r.dispatched == [] then [] else [Join(r.dispatched)])
      && CountOf(r.effects, IsDrain) == (if |s.queue| == 0 then 1 else 0)
      && CountOf(r.effects, IsError) == 0
  {
    var r := Resume(s, byteLength);
    assert r.effects == [r.effects[0]];
    FlushEffect(r.effects[0]);
  }

  /** Queue bookkeeping of one step. FIFO: what leaves the queue is its head
      and what joins it goes to the tail; the one append issued, if any,
      carries the joined dispatched entries; and single flight: an append is
      issued only when the outstanding one (if any) has just completed. */
  lemma StepQueue(s: Store, i: Input, byteLength: string -> nat)
    requires Valid(s) && Enabled(s, i)
    ensures var r := Apply(s, i, byteLength);
      && r.dispatched + r.store.queue == s.queue + Enqueued(s, i, byteLength)
      && Appended(r.effects) == (if r.dispatched == [] then [] else [Join(r.dispatched)])
      && |Appended(r.effects)| + (if Outstanding(s) then 1 else 0)
           == (if i.Completion? then 1 else 0) + (if Outstanding(r.store) then 1 else 0)
  {
    match i
    case SaveRecord(obj, cb) => SaveEffects(s, obj, cb, byteLength);
    case Completion(err) => ReportEffects(s, err);
    case Resumption => ResumeEffects(s, byteLength);
    case SetBufferSize(_) =>
    case SetAllowAnatomicWrites(_) =>
  }

  /** Callback bookkeeping of `save`: nothing is invoked, and an accepted
      record's callback joins the end of the held ones. */
  lemma SaveCallbacks(s: Store, obj: string, cb: Option<nat>, byteLength: string -> nat)
    requires Valid(s)
    ensures var r := Save(s, obj, cb, byteLength);
      && Notified(r.effects) == []
      && r.store.inFlight + r.store.cbQueue
           == s.inFlight + s.cbQueue + (if Rejected(s, obj, byteLength) then [] else [SlotOf(cb)])
  {
    SaveEffects(s, obj, cb, byteLength);
  }

  /** Callback bookkeeping of a completion's reporting part: the held
      callbacks are invoked and the queued ones stay. */
  lemma ReportCallbacks(s: Store, err: Option<ErrorValue>)
    requires Valid(s) && Outstanding(s)
    ensures var r := Report(s, err);
      && Notified(r.effects) == Present(s.inFlight)
      && Present(r.store.inFlight + r.store.cbQueue) == Present(s.cbQueue)
  {
    ReportEffects(s, err);
    assert Report(s, err).store.inFlight + s.cbQueue == s.cbQueue;
  }

  /** Callback bookkeeping of the resuming part: nothing is invoked, and the
      next batch's callbacks move from the queue to the held list. */
  lemma ResumeCallbacks(s: Store, byteLength: string -> nat)
    requires Valid(s) && Settling(s)
    ensures var r := Resume(s, byteLength);
      && Notified(r.effects) == []
      && r.store.inFlight + r.store.cbQueue == s.inFlight + s.cbQueue
  {
    ResumeEffects(s, byteLength);
    assert s.inFlight + s.cbQueue == s.cbQueue;
  }

  /** Callback bookkeeping of one step: only a completion invokes callbacks,
      exactly those of the batch it completes, and every callback held is
      either still held or invoked now. */
  lemma StepCallbacks(s: Store, i: Input, byteLength: string -> nat)
    requires Valid(s) && Enabled(s, i)
    ensures var r := Apply(s, i, byteLength);
      && Notified(r.effects) == (if i.Completion? then Present(s.inFlight) else [])
      && Notified(r.effects) + Present(r.store.inFlight + r.store.cbQueue)
           == Present(s.inFlight + s.cbQueue) + Registered(s, i, byteLength)
  {
    match i
    case SaveRecord(obj, cb) =>
      SaveCallbacks(s, obj, cb, byteLength);
      PresentConcat(s.inFlight + s.cbQueue, [SlotOf(cb)]);
    case Completion(err) =>
      ReportCallbacks(s, err);
      PresentConcat(s.inFlight, s.cbQueue);
    case Resumption =>
      ResumeCallbacks(s, byteLength);
    case SetBufferSize(_) =>
    case SetAllowAnatomicWrites(_) =>
  }

  /** Drain is emitted exactly when the completion handler resumes and finds
      the queue empty, as its listeners and callbacks left it; a resumption
      that dispatches more of a backlog does not drain. A drain also ends a
      busy period, and only a save accepted by an idle store starts one, so
      drains and busy periods match one for one. */
  lemma StepDrain(s: Store, i: Input, byteLength: string -> nat)
    requires Valid(s) && Enabled(s, i)
    ensures var r := Apply(s, i, byteLength);
      && CountOf(r.effects, IsDrain) == (if i.Resumption? && |s.queue| == 0 then 1 else 0)
      && CountOf(r.effects, IsDrain) + (if r.store.midFlush then 1 else 0)
           == (if s.midFlush then 1 else 0) + (if Wakes(s, i, byteLength) then 1 else 0)
      && (Wakes(s, i, byteLength) ==> |Enqueued(s, i, byteLength)| == 1)
  {
    match i
    case SaveRecord(obj, cb) => SaveEffects(s, obj, cb, byteLength);
    case Completion(err) => ReportEffects(s, err);
    case Resumption => ResumeEffects(s, byteLength);
    case SetBufferSize(_) =>
    case SetAllowAnatomicWrites(_) =>
  }

  /** Error is emitted exactly once by a failed append's completion and by a
      rejected oversized record, and never otherwise. */
  lemma StepErrors(s: Store, i: Input, byteLength: string -> nat)
    requires Valid(s) && Enabled(s, i)
    ensures CountOf(Apply(s, i, byteLength).effects, IsError)
         == (if (i.Completion? && i.err.Some?) || (i.SaveRecord? && Rejected(s, i.obj, byteLength)) then 1 else 0)
  {
    match i
    case SaveRecord(obj, cb) => SaveEffects(s, obj, cb, byteLength);
    case Completion(err) => ReportEffects(s, err);
    case Resumption => ResumeEffects(s, byteLength);
    case SetBufferSize(_) =>
    case SetAllowAnatomicWrites(_) =>
  }

  /** What a schedule of inputs produced: the final store, every effect, the
      batches the appends took (one per append, in order), the entries and
      callbacks the saves handed over, and how many completions arrived. */
  datatype Trace = Trace(
    store: Store,
    effects: seq<Effect>,
    batches: seq<seq<string>>,
    accepted: seq<string>,
    registered: seq<Callback>,
    completions: nat,
    wakeups: nat
  )

  /** Applies a schedule; `None` when a completion arrives with no append
      outstanding, which the append primitive never does. */
  function Run(s: Store, inputs: seq<Input>, byteLength: string -> nat): (r: Option<Trace>)
    requires Valid(s)
    ensures r.Some? ==> Valid(r.value.store)
    ensures r.Some? ==> r.value.store.file == s.file && r.value.store.delimiter == s.delimiter
    decreases |inputs|
  {
    if |inputs| == 0 then Some(Trace(s, [], [], [], [], 0, 0))
    else if !Enabled(s, inputs[0]) then None
    else
      var st := Apply(s, inputs[0], byteLength);
      match Run(st.store, inputs[1..], byteLength)
      case None => None
      case Some(rest) =>
        Some(Trace(
          rest.store,
          st.effects + rest.effects,
          (if st.dispatched == [] then [] else [st.dispatched]) + rest.batches,
          Enqueued(s, inputs[0], byteLength) + rest.accepted,
          Registered(s, inputs[0], byteLength) + rest.registered,
          (if inputs[0].Completion? then 1 else 0) + rest.completions,
          (if Wakes(s, inputs[0], byteLength) then 1 else 0) + rest.wakeups))
  }

  function Flatten(batches: seq<seq<string>>): seq<string>
    decreases |batches|
  {
    if |batches| == 0 then [] else batches[0] + Flatten(batches[1..])
  }

  function JoinAll(batches: seq<seq<string>>): seq<string>
    decreases |batches|
  {
    if |batches| == 0 then [] else [Join(batches[0])] + JoinAll(batches[1..])
  }

  /** One step of `Run`, spelled out. */
  lemma RunStep(s: Store, inputs: seq<Input>, byteLength: string -> nat)
    requires Valid(s) && |inputs| > 0 && Run(s, inputs, byteLength).Some?
    ensures Enabled(s, inputs[0])
    ensures Run(Apply(s, inputs[0], byteLength).store, inputs[1..], byteLength).Some?
    ensures var st := Apply(s, inputs[0], byteLength);
      var rest := Run(st.store, inputs[1..], byteLength).value;
      var t := Run(s, inputs, byteLength).value;
      && t.store == rest.store
      && t.effects == st.effects + rest.effects
      && t.batches == (if st.dispatched == [] then [] else [st.dispatched]) + rest.batches
      && t.accepted == Enqueued(s, inputs[0], byteLength) + rest.accepted
      && t.registered == Registered(s, inputs[0], byteLength) + rest.registered
      && t.completions == (if inputs[0].Completion? then 1 else 0) + rest.completions
      && t.wakeups == (if Wakes(s, inputs[0], byteLength) then 1 else 0) + rest.wakeups
  {
  }

  lemma {:induction false} FlattenConcat(a: seq<seq<string>>, b: seq<seq<string>>)
    ensures Flatten(a + b) == Flatten(a) + Flatten(b)
    decreases |a|
  {
    if |a| > 0 {
      assert (a + b)[1..] == a[1..] + b;
      FlattenConcat(a[1..], b);
    } else {
      assert a + b == b;
    }
  }

  lemma {:induction false} JoinAllConcat(a: seq<seq<string>>, b: seq<seq<string>>)
    ensures JoinAll(a + b) == JoinAll(a) + JoinAll(b)
    decreases |a|
  {
    if |a| > 0 {
      assert (a + b)[1..] == a[1..] + b;
      JoinAllConcat(a[1..], b);
    } else {
      assert a + b == b;
    }
  }

  /** FIFO over a whole schedule, for the queue: the batches appended,
      flattened, followed by what is still queued, are the entries queued at
      the start followed by the accepted saves in submission order. */
  lemma {:induction false} RunQueueOrder(s: Store, inputs: seq<Input>, byteLength: string -> nat)
    requires Valid(s) && Run(s, inputs, byteLength).Some?
    ensures var t := Run(s, inputs, byteLength).value;
      Flatten(t.batches) + t.store.queue == s.queue + t.accepted
    decreases |inputs|
  {
    if |inputs| > 0 {
      RunStep(s, inputs, byteLength);
      var st := Apply(s, inputs[0], byteLength);
      var rest := Run(st.store, inputs[1..], byteLength).value;
      StepQueue(s, inputs[0], byteLength);
      RunQueueOrder(st.store, inputs[1..], byteLength);
      var head := if st.dispatched == [] then [] else [st.dispatched];
      FlattenConcat(head, rest.batches);
      assert Flatten(head) == st.dispatched;
      SplicedOrder(s.queue, st.dispatched, st.store.queue, Enqueued(s, inputs[0], byteLength),
                   Flatten(rest.batches), rest.store.queue, rest.accepted);
    }
  }

  /** The sequence algebra of one FIFO step followed by the rest of a run. */
  lemma SplicedOrder(q: seq<string>, d: seq<string>, q1: seq<string>, e: seq<string>,
                     f: seq<string>, q2: seq<string>, acc: seq<string>)
    requires d + q1 == q + e
    requires f + q2 == q1 + acc
    ensures (d + f) + q2 == q + (e + acc)
  {
    calc {
      (d + f) + q2;
      d + (f + q2);
      d + (q1 + acc);
      (d + q1) + acc;
      (q + e) + acc;
    }
  }

  /** FIFO over a whole schedule, for the file: the appends issued carry, in
      order, one non-empty batch each, joined. */
  lemma {:induction false} RunAppends(s: Store, inputs: seq<Input>, byteLength: string -> nat)
    requires Valid(s) && Run(s, inputs, byteLength).Some?
    ensures var t := Run(s, inputs, byteLength).value;
      && Appended(t.effects) == JoinAll(t.batches)
      && (forall k :: 0 <= k < |t.batches| ==> |t.batches[k]| > 0)
    decreases |inputs|
  {
    if |inputs| > 0 {
      RunStep(s, inputs, byteLength);
      var st := Apply(s, inputs[0], byteLength);
      var rest := Run(st.store, inputs[1..], byteLength).value;
      StepQueue(s, inputs[0], byteLength);
      RunAppends(st.store, inputs[1..], byteLength);
      PrependBatch(st.dispatched, st.effects, rest.batches, rest.effects);
    }
  }

  /** The sequence algebra of one step of `RunAppends`. */
  lemma PrependBatch(d: seq<string>, e: seq<Effect>, batches: seq<seq<string>>, rest: seq<Effect>)
    requires Appended(e) == (if d == [] then [] else [Join(d)])
    requires Appended(rest) == JoinAll(batches)
    requires forall k :: 0 <= k < |batches| ==> |batches[k]| > 0
    ensures var all := (if d == [] then [] else [d]) + batches;
      && Appended(e + rest) == JoinAll(all)
      && (forall k :: 0 <= k < |all| ==> |all[k]| > 0)
  {
    var head := if d == [] then [] else [d];
    JoinAllConcat(head, batches);
    AppendedConcat(e, rest);
    assert JoinAll(head) == Appended(e);
  }

  /** Exactly-once callbacks over a whole schedule: the callbacks invoked so far
      followed by those still held equal the callbacks held at the start
      followed by those registered by accepted saves, in order. */
  lemma {:induction false} RunCallbacks(s: Store, inputs: seq<Input>, byteLength: string -> nat)
    requires Valid(s) && Run(s, inputs, byteLength).Some?
    ensures var t := Run(s, inputs, byteLength).value;
      Notified(t.effects) + Present(t.store.inFlight + t.store.cbQueue)
        == Present(s.inFlight + s.cbQueue) + t.registered
    decreases |inputs|
  {
    if |inputs| > 0 {
      RunStep(s, inputs, byteLength);
      var st := Apply(s, inputs[0], byteLength);
      var rest := Run(st.store, inputs[1..], byteLength).value;
      StepCallbacks(s, inputs[0], byteLength);
      RunCallbacks(st.store, inputs[1..], byteLength);
      NotifiedConcat(st.effects, rest.effects);
      SplicedCallbacks(Notified(st.effects), Present(st.store.inFlight + st.store.cbQueue),
                       Present(s.inFlight + s.cbQueue), Registered(s, inputs[0], byteLength),
                       Notified(rest.effects), Present(rest.store.inFlight + rest.store.cbQueue), rest.registered);
    }
  }

  /** The sequence algebra of one callback step followed by the rest of a run. */
  lemma SplicedCallbacks(n: seq<Callback>, h1: seq<Callback>, h: seq<Callback>, reg: seq<Callback>,
                         n2: seq<Callback>, h2: seq<Callback>, reg2: seq<Callback>)
    requires n + h1 == h + reg
    requires n2 + h2 == h1 + reg2
    ensures (n + n2) + h2 == h + (reg + reg2)
  {
    calc {
      (n + n2) + h2;
      n + (n2 + h2);
      n + (h1 + reg2);
      (n + h1) + reg2;
      (h + reg) + reg2;
    }
  }

  /** Single flight over a whole schedule: appends issued, plus the one
      outstanding at the start if any, equal completions received plus the
      one outstanding at the end if any. */
  lemma {:induction false} RunSingleFlight(s: Store, inputs: seq<Input>, byteLength: string -> nat)
    requires Valid(s) && Run(s, inputs, byteLength).Some?
    ensures var t := Run(s, inputs, byteLength).value;
      |Appended(t.effects)| + (if Outstanding(s) then 1 else 0)
        == t.completions + (if Outstanding(t.store) then 1 else 0)
    decreases |inputs|
  {
    if |inputs| > 0 {
      RunStep(s, inputs, byteLength);
      var st := Apply(s, inputs[0], byteLength);
      StepQueue(s, inputs[0], byteLength);
      RunSingleFlight(st.store, inputs[1..], byteLength);
      var rest := Run(st.store, inputs[1..], byteLength).value;
      AppendedConcat(st.effects, rest.effects);
    }
  }

  /** How many inputs of a schedule satisfy `p`. */
  function InputsWhere(inputs: seq<Input>, p: Input -> bool): nat
    decreases |inputs|
  {
    if |inputs| == 0 then 0 else (if p(inputs[0]) then 1 else 0) + InputsWhere(inputs[1..], p)
  }

  predicate IsSave(i: Input) { i.SaveRecord? }

  predicate IsFailure(i: Input) { i.Completion? && i.err.Some? }

  predicate IsResumption(i: Input) { i.Resumption? }

  /** Errors over a whole schedule: one per failed append and one per save
      that was not accepted, and no other. */
  lemma {:induction false} RunErrors(s: Store, inputs: seq<Input>, byteLength: string -> nat)
    requires Valid(s) && Run(s, inputs, byteLength).Some?
    ensures var t := Run(s, inputs, byteLength).value;
      CountOf(t.effects, IsError) + |t.accepted|
        == InputsWhere(inputs, IsFailure) + InputsWhere(inputs, IsSave)
    decreases |inputs|
  {
    if |inputs| > 0 {
      RunStep(s, inputs, byteLength);
      var st := Apply(s, inputs[0], byteLength);
      var rest := Run(st.store, inputs[1..], byteLength).value;
      StepErrors(s, inputs[0], byteLength);
      RunErrors(st.store, inputs[1..], byteLength);
      CountOfConcat(st.effects, rest.effects, IsError);
    }
  }

  /** Drains over a whole schedule: each comes from a resumption, and there is
      exactly one per busy period that ends. Busy periods are the one under way
      at the start, if any, and one per save accepted by an idle store; a
      backlog cleared over several appends, or refilled by the callbacks of its
      batches, therefore drains once. */
  lemma {:induction false} RunDrains(s: Store, inputs: seq<Input>, byteLength: string -> nat)
    requires Valid(s) && Run(s, inputs, byteLength).Some?
    ensures var t := Run(s, inputs, byteLength).value;
      && CountOf(t.effects, IsDrain) + (if t.store.midFlush then 1 else 0)
           == (if s.midFlush then 1 else 0) + t.wakeups
      && CountOf(t.effects, IsDrain) <= InputsWhere(inputs, IsResumption)
      && CountOf(t.effects, IsDrain) + (if t.store.midFlush then 1 else 0)
           <= (if s.midFlush then 1 else 0) + |t.accepted|
    decreases |inputs|
  {
    if |inputs| > 0 {
      RunStep(s, inputs, byteLength);
      var st := Apply(s, inputs[0], byteLength);
      var rest := Run(st.store, inputs[1..], byteLength).value;
      StepDrain(s, inputs[0], byteLength);
      RunDrains(st.store, inputs[1..], byteLength);
      CountOfConcat(st.effects, rest.effects, IsDrain);
    }
  }

  /** A store's whole life: construction with the defaults of the moment, then
      a schedule. */
  function Session(file: string, defaults: Defaults, inputs: seq<Input>, byteLength: string -> nat): Option<Trace>
  {
    var c := Construct(file, defaults, byteLength);
    match Run(c.store, inputs, byteLength)
    case None => None
    case Some(t) =>
      Some(t.(effects := c.effects + t.effects, batches := [c.dispatched] + t.batches))
  }

  /** `Session`, spelled out. */
  lemma SessionStep(file: string, defaults: Defaults, inputs: seq<Input>, byteLength: string -> nat)
    requires Session(file, defaults, inputs, byteLength).Some?
    ensures var c := Construct(file, defaults, byteLength);
      && Run(c.store, inputs, byteLength).Some?
      && var t0 := Run(c.store, inputs, byteLength).value;
         var t := Session(file, defaults, inputs, byteLength).value;
         && t.store == t0.store
         && t.effects == [Append(file, "")] + t0.effects
         && t.batches == [[""]] + t0.batches
         && t.accepted == t0.accepted
         && t.registered == t0.registered
         && t.completions == t0.completions
         && t.wakeups == t0.wakeups
  {
  }

  /** The first thing a store does is append "" to its file, and its
      delimiter stays the one the defaults held at construction. */
  lemma SessionStart(file: string, defaults: Defaults, inputs: seq<Input>, byteLength: string -> nat)
    requires Session(file, defaults, inputs, byteLength).Some?
    ensures var t := Session(file, defaults, inputs, byteLength).value;
      && |t.effects| > 0 && t.effects[0] == Append(file, "")
      && t.store.delimiter == defaults.delimiter
      && t.store.file == file
  {
    SessionStep(file, defaults, inputs, byteLength);
  }

  /** Single flight over a store's life: every append issued but one at most
      has completed, and one is outstanding exactly when the store is mid-flush. */
  lemma SessionSingleFlight(file: string, defaults: Defaults, inputs: seq<Input>, byteLength: string -> nat)
    requires Session(file, defaults, inputs, byteLength).Some?
    ensures var t := Session(file, defaults, inputs, byteLength).value;
      |Appended(t.effects)| == t.completions + (if Outstanding(t.store) then 1 else 0)
  {
    SessionStep(file, defaults, inputs, byteLength);
    var c := Construct(file, defaults, byteLength);
    var t0 := Run(c.store, inputs, byteLength).value;
    RunSingleFlight(c.store, inputs, byteLength);
    AppendedConcat([Append(file, "")], t0.effects);
  }

  /** FIFO over a store's life: the batches appended, flattened, are the
      empty initial entry and then the accepted records in submission order,
      followed by what is still queued; once the store is idle every accepted
      record has been handed to an append. */
  lemma SessionOrder(file: string, defaults: Defaults, inputs: seq<Input>, byteLength: string -> nat)
    requires Session(file, defaults, inputs, byteLength).Some?
    ensures var t := Session(file, defaults, inputs, byteLength).value;
      && Flatten(t.batches) + t.store.queue == [""] + t.accepted
      && (!t.store.midFlush ==> Flatten(t.batches) == [""] + t.accepted)
  {
    SessionStep(file, defaults, inputs, byteLength);
    var c := Construct(file, defaults, byteLength);
    var t0 := Run(c.store, inputs, byteLength).value;
    RunQueueOrder(c.store, inputs, byteLength);
    assert c.store.queue + t0.accepted == t0.accepted;
    PrependEmptyBatch(t0.batches, t0.store.queue, t0.accepted);
  }

  /** The sequence algebra of `SessionOrder`: the constructor's batch goes first. */
  lemma PrependEmptyBatch(batches: seq<seq<string>>, queue: seq<string>, accepted: seq<string>)
    requires Flatten(batches) + queue == accepted
    ensures Flatten([[""]] + batches) + queue == [""] + accepted
    ensures queue == [] ==> Flatten([[""]] + batches) == [""] + accepted
  {
    FlattenConcat([[""]], batches);
    assert Flatten([[""]]) == [""];
  }

  /** The file side of FIFO: every append of a store's life carries one
      non-empty batch, joined, in the order the batches were taken. */
  lemma SessionAppends(file: string, defaults: Defaults, inputs: seq<Input>, byteLength: string -> nat)
    requires Session(file, defaults, inputs, byteLength).Some?
    ensures var t := Session(file, defaults, inputs, byteLength).value;
      && Appended(t.effects) == JoinAll(t.batches)
      && (forall k :: 0 <= k < |t.batches| ==> |t.batches[k]| > 0)
  {
    SessionStep(file, defaults, inputs, byteLength);
    var c := Construct(file, defaults, byteLength);
    var t0 := Run(c.store, inputs, byteLength).value;
    var t := Session(file, defaults, inputs, byteLength).value;
    RunAppends(c.store, inputs, byteLength);
    AppendedConcat([Append(file, "")], t0.effects);
    JoinAllConcat([[""]], t0.batches);
    assert Appended([Append(file, "")]) == JoinAll([[""]]);
    assert forall k :: 1 <= k < |t.batches| ==> t.batches[k] == t0.batches[k - 1];
  }

  /** Exactly-once callbacks over a store's life: the ready callback and then
      every callback registered by an accepted save are, in that order, either
      invoked once or still held; once the store is idle all have been invoked. */
  lemma SessionCallbacks(file: string, defaults: Defaults, inputs: seq<Input>, byteLength: string -> nat)
    requires Session(file, defaults, inputs, byteLength).Some?
    ensures var t := Session(file, defaults, inputs, byteLength).value;
      && Notified(t.effects) + Present(t.store.inFlight + t.store.cbQueue) == [ReadyCallback] + t.registered
      && (!t.store.midFlush ==> Notified(t.effects) == [ReadyCallback] + t.registered)
  {
    SessionStep(file, defaults, inputs, byteLength);
    var c := Construct(file, defaults, byteLength);
    var t0 := Run(c.store, inputs, byteLength).value;
    var t := Session(file, defaults, inputs, byteLength).value;
    RunCallbacks(c.store, inputs, byteLength);
    NotifiedConcat([Append(file, "")], t0.effects);
    assert c.store.inFlight + c.store.cbQueue == [Some(ReadyCallback)];
    assert Present([Some(ReadyCallback)]) == [ReadyCallback] by {
      assert [Some(ReadyCallback)][1..] == [];
    }
    assert Notified([Append(file, "")]) == [];
    assert Notified(t.effects) == Notified(t0.effects);
    if !t.store.midFlush {
      assert t.store.inFlight + t.store.cbQueue == [];
    }
  }

  /** Drains over a store's life: one for the busy period construction starts
      and one per later save accepted by an idle store, less the period still
      under way. So an idle store has drained at least once, and never more
      often than one plus the records accepted. */
  lemma SessionDrains(file: string, defaults: Defaults, inputs: seq<Input>, byteLength: string -> nat)
    requires Session(file, defaults, inputs, byteLength).Some?
    ensures var t := Session(file, defaults, inputs, byteLength).value;
      && CountOf(t.effects, IsDrain) + (if t.store.midFlush then 1 else 0) == 1 + t.wakeups
      && CountOf(t.effects, IsDrain) + (if t.store.midFlush then 1 else 0) >= 1
      && CountOf(t.effects, IsDrain) + (if t.store.midFlush then 1 else 0) <= 1 + |t.accepted|
  {
    SessionStep(file, defaults, inputs, byteLength);
    var c := Construct(file, defaults, byteLength);
    var t0 := Run(c.store, inputs, byteLength).value;
    RunDrains(c.store, inputs, byteLength);
    CountOfConcat([Append(file, "")], t0.effects, IsDrain);
  }

  // ---------------------------------------------------------------------------
  // Scenarios. Construction, single drain and the oversized record replay
  // cases of test/test-filestore.js; the others follow lib/filestore.js
  // through the batch budget and through calls made from a callback.

  /** Construction: the empty append; on its completion `error` (if it
      failed), `ready` with the completion's error, and `drain`, leaving an
      idle store configured from the defaults of the moment. */
  lemma ConstructionScenario(file: string, defaults: Defaults, err: Option<ErrorValue>, byteLength: string -> nat)
    ensures defaults == InitialDefaults ==>
      var c := Construct(file, defaults, byteLength).store;
      c.delimiter == "\n" && c.bufferSize == 4096 && c.allowAnatomicWrites
    ensures var c := Construct(file, defaults, byteLength);
      && c.effects == [Append(file, "")]
      && var r := AppendDone(c.store, err, byteLength);
         && r.effects == ErrorSignal(err) + [Emit(Ready(err)), Emit(Drain)]
         && r.store == Store(file, defaults.delimiter, defaults.bufferSize, defaults.allowAnatomicWrites,
                             [], [], false, [])
  {
    assert Notify([Some(ReadyCallback)], err) == [Emit(Ready(err))];
  }

  /** A backlog drained over two appends emits one `drain`: on an idle store
      the first record goes out alone at once, with the store's delimiter; the
      second waits for it; the completion of the first dispatches the second
      without draining; only the last completion drains. */
  lemma SingleDrainScenario(s: Store, a: string, b: string, byteLength: string -> nat)
    requires Valid(s) && !s.midFlush && s.allowAnatomicWrites
    ensures var d := s.delimiter;
      var r1 := Save(s, a, None, byteLength);
      var r2 := Save(r1.store, b, None, byteLength);
      && r1.effects == [Append(s.file, a + d)]
      && r2.effects == []
      && Outstanding(r2.store)
      && var r3 := AppendDone(r2.store, None, byteLength);
         && r3.effects == [Append(s.file, b + d)]
         && Outstanding(r3.store)
         && AppendDone(r3.store, None, byteLength).effects == [Emit(Drain)]
  {
    var d := s.delimiter;
    var r1 := Save(s, a, None, byteLength);
    var r2 := Save(r1.store, b, None, byteLength);
    assert r2.store.queue == [b + d] && r2.store.inFlight == [None];
    var r3 := AppendDone(r2.store, None, byteLength);
    assert r3.dispatched == [b + d];
    assert Notify([None], None) == [];
    assert r3.store.inFlight == [None];
  }

  /** Saves made before the store is ready only queue their records and
      callbacks, with the store's delimiter, behind the empty append. */
  lemma QueueBeforeReady(file: string, defaults: Defaults, a: string, b: string, c: string, byteLength: string -> nat)
    requires defaults.allowAnatomicWrites
    ensures var d := defaults.delimiter;
      var s0 := Construct(file, defaults, byteLength).store;
      var s1 := Save(s0, a, Some(1), byteLength);
      var s2 := Save(s1.store, b, Some(2), byteLength);
      var s3 := Save(s2.store, c, Some(3), byteLength);
      && s1.effects == [] && s2.effects == [] && s3.effects == []
      && s3.store == s0.(queue := [a + d, b + d, c + d],
                         cbQueue := [Some(UserCallback(1)), Some(UserCallback(2)), Some(UserCallback(3))])
  {
  }

  /** Three queued records whose delimited forms are `x`, `y` and `z`, with the
      head measured by its string length, `y` fitting the budget after it and
      `z` not: the completion of the outstanding append dispatches `x` and `y`
      joined by a comma and leaves `z` queued with its callback. */
  lemma BudgetFirstBatch(s: Store, x: string, y: string, z: string, byteLength: string -> nat)
    requires Valid(s) && Outstanding(s)
    requires s.queue == [x, y, z]
    requires s.cbQueue == [Some(UserCallback(1)), Some(UserCallback(2)), Some(UserCallback(3))]
    requires |x| + byteLength(y) <= s.bufferSize < |x| + byteLength(y) + byteLength(z)
    ensures var r1 := AppendDone(s, None, byteLength);
      && r1.effects == Notify(s.inFlight, None) + [Append(s.file, x + "," + y)]
      && r1.store == s.(queue := [z], cbQueue := [Some(UserCallback(3))],
                        inFlight := [Some(UserCallback(1)), Some(UserCallback(2))])
  {
    var r1 := AppendDone(s, None, byteLength);
    assert IsBatch(s.queue, 2, s.bufferSize, byteLength);
    BatchUnique(s.queue, |r1.dispatched|, 2, s.bufferSize, byteLength);
    assert r1.dispatched == [x, y];
    assert Join([x, y]) == x + "," + Join([y]);
  }

  /** The batch after it: completing the comma-joined append invokes the first
      two callbacks and dispatches `z` alone; completing that invokes the third
      and drains. */
  lemma BudgetLastBatch(s: Store, z: string, byteLength: string -> nat)
    requires s.queue == [z] && s.cbQueue == [Some(UserCallback(3))]
    requires s.midFlush && s.inFlight == [Some(UserCallback(1)), Some(UserCallback(2))]
    ensures var r2 := AppendDone(s, None, byteLength);
      && r2.effects == [Invoke(1, None), Invoke(2, None), Append(s.file, z)]
      && Outstanding(r2.store)
      && AppendDone(r2.store, None, byteLength).effects == [Invoke(3, None), Emit(Drain)]
  {
    var r2 := AppendDone(s, None, byteLength);
    assert r2.dispatched == [z];
    assert Notify([Some(UserCallback(1)), Some(UserCallback(2))], None) == [Invoke(1, None), Invoke(2, None)];
    assert r2.store.inFlight == [Some(UserCallback(3))];
  }

  /** Together: records saved before the store is ready are grouped under the
      budget behind the empty append; the first completion emits `ready` and
      dispatches the first two joined by a comma, and each save callback fires
      only when its own batch completes. */
  lemma BudgetScenario(file: string, defaults: Defaults, a: string, b: string, c: string, byteLength: string -> nat)
    requires defaults.allowAnatomicWrites
    requires var d := defaults.delimiter;
      |a + d| + byteLength(b + d) <= defaults.bufferSize < |a + d| + byteLength(b + d) + byteLength(c + d)
    ensures var d := defaults.delimiter;
      var s0 := Construct(file, defaults, byteLength).store;
      var s3 := Save(Save(Save(s0, a, Some(1), byteLength).store, b, Some(2), byteLength).store, c, Some(3), byteLength);
      && Outstanding(s3.store)
      && var r1 := AppendDone(s3.store, None, byteLength);
         && r1.effects == [Emit(Ready(None)), Append(file, a + d + "," + (b + d))]
         && var r2 := AppendDone(r1.store, None, byteLength);
            && r2.effects == [Invoke(1, None), Invoke(2, None), Append(file, c + d)]
            && Outstanding(r2.store)
            && AppendDone(r2.store, None, byteLength).effects == [Invoke(3, None), Emit(Drain)]
  {
    var d := defaults.delimiter;
    QueueBeforeReady(file, defaults, a, b, c, byteLength);
    var s0 := Construct(file, defaults, byteLength).store;
    var s3 := Save(Save(Save(s0, a, Some(1), byteLength).store, b, Some(2), byteLength).store, c, Some(3), byteLength);
    BudgetFirstBatch(s3.store, a + d, b + d, c + d, byteLength);
    assert Notify([Some(ReadyCallback)], None) == [Emit(Ready(None))];
    BudgetLastBatch(AppendDone(s3.store, None, byteLength).store, c + d, byteLength);
  }

  /** Saves made from a `ready` listener find the store still busy: they only
      queue, no `drain` follows `ready`, and when the handler resumes the
      records go out together in one comma-joined append. */
  lemma ReadyListenerSaves(file: string, defaults: Defaults, a: string, b: string, byteLength: string -> nat)
    requires defaults.allowAnatomicWrites
    requires |a + defaults.delimiter| + byteLength(b + defaults.delimiter) <= defaults.bufferSize
    ensures var d := defaults.delimiter;
      var r := Report(Construct(file, defaults, byteLength).store, None);
      var s1 := Save(r.store, a, None, byteLength);
      var s2 := Save(s1.store, b, None, byteLength);
      && r.effects == [Emit(Ready(None))]
      && s1.effects == [] && s2.effects == []
      && Settling(s2.store)
      && Resume(s2.store, byteLength).effects == [Append(file, a + d + "," + (b + d))]
  {
    var d := defaults.delimiter;
    var r := Report(Construct(file, defaults, byteLength).store, None);
    assert Notify([Some(ReadyCallback)], None) == [Emit(Ready(None))];
    var s2 := Save(Save(r.store, a, None, byteLength).store, b, None, byteLength);
    var q := [a + d, b + d];
    assert s2.store.queue == q;
    var n := Resume(s2.store, byteLength);
    assert IsBatch(q, 2, defaults.bufferSize, byteLength);
    BatchUnique(q, |n.dispatched|, 2, defaults.bufferSize, byteLength);
    assert n.dispatched == q;
    assert Join(q) == a + d + "," + Join([b + d]);
  }

  /** An oversized record under the reject policy raises one argument-less
      error at once, even while another record is in flight; it is not queued
      and its callback is never invoked. */
  lemma OversizedScenario(s: Store, a: string, big: string, byteLength: string -> nat)
    requires Valid(s) && !s.midFlush && !s.allowAnatomicWrites
    requires byteLength(a + s.delimiter) <= s.bufferSize
    requires byteLength(big + s.delimiter) > s.bufferSize
    ensures var r1 := Save(s, a, Some(7), byteLength);
      var r2 := Save(r1.store, big, Some(8), byteLength);
      && r1.effects == [Append(s.file, a + s.delimiter)]
      && r2.effects == [Emit(Error(None))]
      && Outstanding(r2.store)
      && AppendDone(r2.store, None, byteLength).effects == [Invoke(7, None), Emit(Drain)]
  {
    var r1 := Save(s, a, Some(7), byteLength);
    assert r1.store.inFlight == [Some(UserCallback(7))];
  }
}
