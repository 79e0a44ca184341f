/**
`AyameTransport` and `AyameStream` (`src/ayame_transport.h`) as objects. Each method of a
stream carries along the value of `StreamSpec` it stands for and is proved to take the step
that module gives for it; `mutex_` is a field, so re-acquiring it would not verify.
*/
module AyameTransport {
  import opened Wrappers
  import opened Metadata
  import opened ByteStream
  import opened Batches
  import opened Rendezvous
  import opened Ledger
  import opened StreamSpec
  import EndToEnd
  import Lifetime
  import Signaling = AyameSignaling
  import SignalingSpec

  class AyameTransport {
    const ayame: Signaling.AyameSignaling
    var refs: nat
    var readyWaited: seq<AyameStream>
    ghost var life: Lifetime.Life

    ghost predicate Counted()
      reads this
    {
      Lifetime.LifeOk(life) && refs == life.refs
    }

    constructor (ayame: Signaling.AyameSignaling)
      ensures Counted() && life == Lifetime.Run([]) && readyWaited == []
      ensures this.ayame == ayame
    {
      this.ayame := ayame;
      refs, readyWaited, life := 1, [], Lifetime.Run([]);
    }

    method Ref(ghost stream: nat)
      requires Counted() && Lifetime.Allowed(life, Lifetime.Builds(stream))
      modifies this`refs, this`life
      ensures Counted() && life == Lifetime.Step(old(life), Lifetime.Builds(stream))
    {
      life := Lifetime.Step(life, Lifetime.Builds(stream));
      refs := refs + 1;
    }

    /** `freed` is whether this was the last reference. */
    method Unref(ghost e: Lifetime.Event) returns (freed: bool)
      requires Counted() && Lifetime.Allowed(life, e) && !e.Builds?
      modifies this`refs, this`life
      ensures Counted() && life == Lifetime.Step(old(life), e)
      ensures freed <==> life.frees == old(life.frees) + 1
    {
      life := Lifetime.Step(life, e);
      refs := refs - 1;
      freed := refs == 0;
    }

    method Destroy() returns (freed: bool)
      requires Counted() && life.owned
      modifies this`refs, this`life
      ensures Counted() && life == Lifetime.Step(old(life), Lifetime.Releases)
    {
      freed := Unref(Lifetime.Releases);
    }

    /** Asking for a channel once ready uses the connection, so that must be alive. */
    ghost predicate CanCreate()
      reads this, ayame
    {
      SignalingSpec.CanCreate(ayame.Value())
    }

    method CreateDataChannel() returns (dc: Option<DataState>)
      requires CanCreate()
      ensures dc == if ayame.ready then Some(Connecting) else None
    {
      var created := ayame.CreateDataChannel();
      dc := if created then Some(Connecting) else None;
    }

    method AddOnReady(s: AyameStream)
      modifies this`readyWaited
      ensures readyWaited == old(readyWaited) + [s]
    {
      readyWaited := readyWaited + [s];
    }

    /** The loop of `OnReady` over the callbacks. */
    method RunCallbacks(waited: seq<AyameStream>, ghost before: seq<Stream>)
      requires CanCreate() && ayame.ready && |before| == |waited|
      requires forall i, j | 0 <= i < j < |waited| :: waited[i] != waited[j]
      requires forall k | 0 <= k < |waited| :: waited[k].transport == this && waited[k].Idle(before[k])
      modifies waited
      ensures forall k | 0 <= k < |waited| :: waited[k].Idle(Retry(waited[k].lib, before[k], true))
    {
      var i := 0;
      while i < |waited|
        invariant i <= |waited|
        invariant forall k | 0 <= k < i :: waited[k].Idle(Retry(waited[k].lib, before[k], true))
        invariant forall k | i <= k < |waited| :: waited[k].Idle(before[k])
      {
        waited[i].OnTransportReady();
        i := i + 1;
      }
    }

    /** Every waiting stream retries its pending batch, each once; then none waits any more. */
    method OnReady()
      requires CanCreate() && ayame.ready
      requires forall i, j | 0 <= i < j < |readyWaited| :: readyWaited[i] != readyWaited[j]
      requires forall k | 0 <= k < |readyWaited| ::
                 readyWaited[k].transport == this && readyWaited[k].Idle(readyWaited[k].model)
      modifies this`readyWaited, readyWaited
      ensures readyWaited == []
      ensures forall k | 0 <= k < |old(readyWaited)| ::
                old(readyWaited)[k].Idle(Retry(old(readyWaited)[k].lib, old(readyWaited[k].model), true))
    {
      RunCallbacks(readyWaited, seq(|readyWaited|,
                                    k requires 0 <= k < |readyWaited| reads this, readyWaited => readyWaited[k].model));
      readyWaited := [];
    }
  }

  /** What happens to `mutex_`, and the closures run in between. */
  datatype LockEvent = Acquires | Releases | ClosureRuns

  /** Whether the mutex is held after these events; `None` if it was acquired while held,
      released while free, or a closure ran while it was held. */
  function MutexAfter(trace: seq<LockEvent>): Option<bool> {
    if trace == [] then Some(false)
    else
      var before, e := MutexAfter(trace[..|trace| - 1]), trace[|trace| - 1];
      match before
      case None => None
      case Some(held) =>
        if e == Acquires then (if held then None else Some(true))
        else if e == Releases then (if held then Some(false) else None)
        else if held then None else Some(false)
  }

  /** In a trace that ends well, the mutex is free wherever it is acquired or a closure runs. */
  lemma {:induction false} MutexDiscipline(trace: seq<LockEvent>, i: nat)
    requires MutexAfter(trace).Some? && i < |trace|
    ensures MutexAfter(trace[..i]) == Some(trace[i] == Releases)
  {
    var last := |trace| - 1;
    if i == last {
    } else {
      MutexDiscipline(trace[..last], i);
      assert trace[..last][..i] == trace[..i];
    }
  }

  lemma {:induction false} WaitAllConcat(lib: Lib, q: Queues, a: seq<Waiter>, b: seq<Waiter>)
    ensures WaitAll(lib, q, a + b) == WaitAll(lib, WaitAll(lib, q, a), b)
    decreases |a|
  {
    if a == [] {
      assert a + b == b;
    } else {
      assert (a + b)[1..] == a[1..] + b;
      WaitAllConcat(lib, Wait(lib, q, a[0]), a[1..], b);
    }
  }

  lemma WaitAllOfBatch(lib: Lib, q: Queues, op: Batch)
    ensures WaitAll(lib, q, WaitersOf(op))
            == WaitAll(lib,
                       WaitAll(lib,
                               WaitAll(lib, q, WaiterFor(InitialMetadata, op.recvInitial)),
                               WaiterFor(MessageBody, op.recvMessage)),
                       WaiterFor(TrailingMetadata, op.recvTrailing))
  {
    var a, b, c := WaiterFor(InitialMetadata, op.recvInitial), WaiterFor(MessageBody, op.recvMessage),
                   WaiterFor(TrailingMetadata, op.recvTrailing);
    WaitAllConcat(lib, q, a + b, c);
    WaitAllConcat(lib, q, a, b);
  }

  class AyameStream {
    const transport: AyameTransport
    const lib: Lib
    ghost const id: nat

    var dc: Option<DataState>
    var sent: seq<Buffer>
    var pendingOp: Option<Batch>
    var held: bool
    var dataQueue: seq<Buffer>
    var funcQueue: seq<Waiter>
    var recvInited: bool
    var recvMessage: Buffer
    /** Calls of the slice buffer's init and destroy functions. */
    var bufferInits: nat
    var bufferDestroys: nat
    /** What the continuations put where their batches point. */
    var delivered: seq<Outcome>
    /** Closures on the execution context of the thread at work. */
    var scheduled: seq<Closure>
    ghost var model: Stream
    ghost var trace: seq<LockEvent>

    /** The fields hold what the model says. */
    ghost predicate Valid()
      reads this
    {
      && dc == model.link.dc && pendingOp == model.link.ledger.pending && sent == model.sent
      && ValidQueues()
    }

    /** Between two steps, with `m` as its value. */
    ghost predicate Idle(m: Stream)
      reads this
    {
      Valid() && !held && model == m
    }

    /** The stream has its channel, or may ask for one. */
    ghost predicate Usable()
      reads this, transport, transport.ayame
    {
      dc.None? ==> transport.CanCreate()
    }

    ghost predicate ValidQueues()
      reads this
    {
      && dataQueue == model.queues.meeting.data && funcQueue == model.queues.meeting.waiting
      && model.queues.recvBuffer == (if recvInited then Some(recvMessage) else None)
      && bufferInits == model.queues.inits && bufferDestroys == model.queues.destroys
      && delivered == model.queues.outcomes && scheduled == model.queues.scheduled
      && MutexAfter(trace) == Some(held)
    }

    /** `serverData` is the channel of an incoming stream; an outgoing one asks the transport. */
    constructor (transport: AyameTransport, lib: Lib, ghost id: nat, serverData: Option<(DataState, bool)>)
      requires serverData.None? ==> transport.CanCreate()
      requires transport.Counted()
      requires Lifetime.Allowed(transport.life, Lifetime.Builds(id))
      modifies transport
      ensures this.transport == transport && this.lib == lib && this.id == id
      ensures Valid() && !held && model == Fresh(dc, serverData.Some? && serverData.value.1)
      ensures serverData.Some? ==> dc == Some(serverData.value.0)
      ensures serverData.None? ==> dc == if transport.ayame.ready then Some(Connecting) else None
      ensures transport.readyWaited == old(transport.readyWaited) + if dc.None? then [this] else []
      ensures transport.Counted() && transport.life == Lifetime.Step(old(transport.life), Lifetime.Builds(id))
    {
      this.transport, this.lib, this.id := transport, lib, id;
      sent, pendingOp, held := [], None, false;
      dataQueue, funcQueue, scheduled, delivered, trace := [], [], [], [], [];
      recvInited, recvMessage, bufferInits, bufferDestroys := false, [], 0, 0;
      transport.Ref(id);
      var created := None;
      if serverData.None? {
        created := transport.CreateDataChannel();
      }
      var state := if serverData.Some? then Some(serverData.value.0) else created;
      dc := state;
      model := Fresh(state, serverData.Some? && serverData.value.1);
      new;
      if dc.None? {
        transport.AddOnReady(this);
      }
    }

    // The mutex

    method Lock()
      requires !held && MutexAfter(trace) == Some(false)
      modifies this`held, this`trace
      ensures held && MutexAfter(trace) == Some(true)
    {
      assert (trace + [Acquires])[..|trace|] == trace;
      held, trace := true, trace + [Acquires];
    }

    method Unlock()
      requires held && MutexAfter(trace) == Some(true)
      modifies this`held, this`trace
      ensures !held && MutexAfter(trace) == Some(false)
    {
      assert (trace + [Releases])[..|trace|] == trace;
      held, trace := false, trace + [Releases];
    }

    // Receiving

    /** A continuation runs on its frame. It holds the mutex, and only schedules its closure. */
    method RunContinuation(w: Waiter, data: Buffer)
      requires held && ValidQueues()
      modifies this`recvInited, this`recvMessage, this`bufferInits, this`bufferDestroys
      modifies this`delivered, this`scheduled, this`model
      ensures ValidQueues() && model == old(model).(queues := Deliver(lib, old(model.queues), w, data))
    {
      model := model.(queues := Deliver(lib, model.queues, w, data));
      if w.kind == MessageBody {
        if recvInited {
          bufferDestroys := bufferDestroys + 1;
        }
        bufferInits := bufferInits + 1;
        recvInited := true;
        recvMessage := data;
        delivered := delivered + [Received(data)];
      } else {
        var threw, list, ok := AppendMetadata(lib, data, w.into);
        delivered := delivered + [if threw then Threw(list) else Filled(list, ok)];
        if threw {
          return;
        }
      }
      scheduled := scheduled + [w.ready];
    }

    /** A frame arrives. The mutex is released before the scheduled closures run. */
    method OnMessage(buffer: Buffer)
      requires Valid() && !held && Usable()
      modifies this
      ensures Valid() && !held && scheduled == []
      ensures model == Flush(lib, EndToEnd.Receives(lib, old(model), buffer), transport.ayame.ready)
      ensures old(dc.Some?) ==> dc.Some?
    {
      ghost var received := EndToEnd.Receives(lib, model, buffer);
      Receive(buffer);
      assert model == received;
      FlushClosures();
    }

    /** The part of `OnMessage` under the mutex. */
    method Receive(buffer: Buffer)
      requires ValidQueues() && !held
      modifies this`held, this`trace, this`dataQueue, this`funcQueue
      modifies this`recvInited, this`recvMessage, this`bufferInits, this`bufferDestroys
      modifies this`delivered, this`scheduled, this`model
      ensures ValidQueues() && !held && model == EndToEnd.Receives(lib, old(model), buffer)
    {
      Lock();
      model := model.(queues := model.queues.(meeting := OnData(model.queues.meeting, buffer),
                                              arrived := model.queues.arrived + [buffer]));
      if funcQueue != [] {
        var f := funcQueue[0];
        funcQueue := funcQueue[1..];
        RunContinuation(f, buffer);
      } else {
        dataQueue := dataQueue + [buffer];
      }
      Unlock();
    }

    method WaitForRecv(w: Waiter)
      requires ValidQueues() && !held
      modifies this`held, this`trace, this`dataQueue, this`funcQueue
      modifies this`recvInited, this`recvMessage, this`bufferInits, this`bufferDestroys
      modifies this`delivered, this`scheduled, this`model
      ensures ValidQueues() && !held && model == old(model).(queues := Wait(lib, old(model.queues), w))
    {
      Lock();
      model := model.(queues := model.queues.(meeting := OnWait(model.queues.meeting, w),
                                              waiters := model.queues.waiters + [w]));
      if dataQueue != [] {
        var data := dataQueue[0];
        dataQueue := dataQueue[1..];
        RunContinuation(w, data);
      } else {
        funcQueue := funcQueue + [w];
      }
      Unlock();
    }

    /** Registers the continuation of one receive request, if the batch has it. */
    method WaitIfAsked(kind: Kind, r: Option<Receive>)
      requires ValidQueues() && !held
      modifies this`held, this`trace, this`dataQueue, this`funcQueue
      modifies this`recvInited, this`recvMessage, this`bufferInits, this`bufferDestroys
      modifies this`delivered, this`scheduled, this`model
      ensures ValidQueues() && !held
      ensures model == old(model).(queues := WaitAll(lib, old(model.queues), WaiterFor(kind, r)))
    {
      match r {
        case None =>
        case Some(Receive(into, ready)) =>
          WaitForRecv(Waiter(kind, into, ready));
          assert WaiterFor(kind, r)[1..] == [];
      }
    }

    // Batches

    method SendMetadata(md: Option<seq<Pair>>, ghost kind: Kind)
      modifies this`sent
      ensures sent == old(sent) + WireAll(lib, HeaderFrames(kind, md))
    {
      if md.Some? {
        var jmeta := EncodeMetadata(md.value);
        sent := sent + [lib.dump(jmeta)];
      }
    }

    method SendBody(message: Option<Message>)
      modifies this`sent
      ensures sent == old(sent) + WireAll(lib, MessageFrames(message))
    {
      if message.Some? {
        var frames := SendMessage(message.value);
        assert WireAll(lib, Bodies(frames)) == frames;
        sent := sent + frames;
      }
    }

    /** Lines 263-314: initial metadata, message, trailing metadata. */
    method SendFrames(op: Batch)
      modifies this`sent
      ensures sent == old(sent) + WireAll(lib, FramesOf(op))
    {
      SendMetadata(op.sendInitial, InitialMetadata);
      SendBody(op.sendMessage);
      SendMetadata(op.sendTrailing, TrailingMetadata);
      WireAllConcat(lib, HeaderFrames(InitialMetadata, op.sendInitial), MessageFrames(op.sendMessage));
    }

    /** Lines 322-404: the continuations, in the same order. */
    method RegisterWaiters(op: Batch)
      requires ValidQueues() && !held
      modifies this`held, this`trace, this`dataQueue, this`funcQueue
      modifies this`recvInited, this`recvMessage, this`bufferInits, this`bufferDestroys
      modifies this`delivered, this`scheduled, this`model
      ensures ValidQueues() && !held
      ensures model == old(model).(queues := WaitAll(lib, old(model.queues), WaitersOf(op)))
    {
      ghost var q := model.queues;
      WaitIfAsked(InitialMetadata, op.recvInitial);
      WaitIfAsked(MessageBody, op.recvMessage);
      WaitIfAsked(TrailingMetadata, op.recvTrailing);
      WaitAllOfBatch(lib, q, op);
    }

    /** Sends what the batch has, schedules its completion, and registers its continuations. */
    method RunBatch(op: Batch)
      requires ValidQueues() && !held && sent == model.sent
      modifies this`sent, this`held, this`trace, this`dataQueue, this`funcQueue
      modifies this`recvInited, this`recvMessage, this`bufferInits, this`bufferDestroys
      modifies this`delivered, this`scheduled, this`model
      ensures ValidQueues() && !held && sent == model.sent
      ensures model == Stream(old(model.link), old(model.sent) + WireAll(lib, FramesOf(op)),
                              Register(lib, old(model.queues), op))
    {
      SendFrames(op);
      model := model.(sent := sent);
      if op.sendInitial.Some? || op.sendMessage.Some? || op.sendTrailing.Some? {
        scheduled := scheduled + [op.onComplete];
        model := model.(queues := model.queues.(scheduled := model.queues.scheduled + [op.onComplete]));
      }
      RegisterWaiters(op);
    }

    method PerformOp(op: Batch)
      requires Valid() && !held && Usable()
      modifies this
      ensures Valid() && !held && model == StreamSpec.PerformOp(lib, old(model), op, transport.ayame.ready)
      ensures old(dc.Some?) ==> dc.Some?
    {
      ghost var next := StreamSpec.PerformOp(lib, model, op, transport.ayame.ready);
      if dc.None? {
        dc := transport.CreateDataChannel();
      }
      if dc != Some(Open) {
        model := next;
        if pendingOp.Some? && pendingOp.value != op {
          return;
        }
        pendingOp := Some(op);
        return;
      }
      pendingOp := None;
      model := model.(link := next.link);
      RunBatch(op);
    }

    /** A caller hands in a batch. */
    method Submit(op: Batch)
      requires Valid() && !held && Usable()
      modifies this
      ensures Valid() && !held && model == StreamSpec.Submit(lib, old(model), op, transport.ayame.ready)
      ensures old(dc.Some?) ==> dc.Some?
    {
      model := model.(link := CountedLink(model.link, op));
      PerformOp(op);
    }

    // Wake-ups

    /** The callback registered with the transport. */
    method OnTransportReady()
      requires Valid() && !held && (pendingOp.Some? ==> Usable())
      modifies this
      ensures Valid() && !held && model == Retry(lib, old(model), transport.ayame.ready)
      ensures old(dc.Some?) ==> dc.Some?
    {
      if pendingOp.Some? {
        PerformOp(pendingOp.value);
      }
    }

    /** The channel changed state; its observer hears of it later. */
    method ChannelMoves(state: DataState)
      requires Valid()
      modifies this`dc, this`model
      ensures Valid() && model == EndToEnd.Moved(old(model), state)
    {
      model := EndToEnd.Moved(model, state);
      if dc.Some? && EndToEnd.Rank(dc.value) < EndToEnd.Rank(state) {
        dc := Some(state);
      }
    }

    /** The observer is told. Closures run only where the handler opened an execution context. */
    method OnStateChange()
      requires Valid() && !held
      modifies this
      ensures Valid() && !held
      ensures var told := Notice(lib, old(model), transport.ayame.ready);
              model == if old(dc == Some(Open) && pendingOp.Some?) then Flush(lib, told, transport.ayame.ready)
                       else told
      ensures old(dc.Some?) ==> dc.Some?
    {
      model := model.(link := model.link.(noticeDue := false));
      if dc == Some(Open) && pendingOp.Some? {
        PerformOp(pendingOp.value);
        FlushClosures();
      }
    }

    // Closures

    /** The execution context runs its closures; each may submit batches to this very stream. */
    method FlushClosures()
      requires Valid() && !held && Usable()
      modifies this
      ensures Valid() && !held && scheduled == []
      ensures model == Flush(lib, old(model), transport.ayame.ready)
      ensures old(dc.Some?) ==> dc.Some?
    {
      ghost var ready := transport.ayame.ready;
      while scheduled != []
        invariant Valid() && !held && Usable() && transport.ayame.ready == ready
        invariant old(dc.Some?) ==> dc.Some?
        invariant Flush(lib, model, ready) == Flush(lib, old(model), ready)
        decreases Load(model)
      {
        RunOneLoad(lib, model, ready);
        RunFirst();
      }
    }

    /** The first closure leaves the execution context, with the mutex free. */
    method TakeFirst() returns (c: Closure)
      requires ValidQueues() && !held && scheduled != []
      modifies this`scheduled, this`trace, this`model
      ensures ValidQueues() && c == old(scheduled[0]) && model == Popped(old(model))
    {
      c := scheduled[0];
      scheduled := scheduled[1..];
      assert (trace + [ClosureRuns])[..|trace|] == trace;
      trace := trace + [ClosureRuns];
      model := Popped(model);
    }

    method RunFirst()
      requires Valid() && !held && Usable() && scheduled != []
      modifies this
      ensures Valid() && !held && model == RunOne(lib, old(model), transport.ayame.ready)
      ensures old(dc.Some?) ==> dc.Some?
    {
      var c := TakeFirst();
      SubmitEach(c.submits);
    }

    method SubmitEach(ops: seq<Batch>)
      requires Valid() && !held && Usable()
      modifies this
      ensures Valid() && !held && model == SubmitAll(lib, old(model), ops, transport.ayame.ready)
      ensures old(dc.Some?) ==> dc.Some?
    {
      ghost var ready := transport.ayame.ready;
      var i := 0;
      while i < |ops|
        invariant 0 <= i <= |ops|
        invariant Valid() && !held && Usable() && transport.ayame.ready == ready
        invariant old(dc.Some?) ==> dc.Some?
        invariant SubmitAll(lib, model, ops[i..], ready) == SubmitAll(lib, old(model), ops, ready)
      {
        assert ops[i..][1..] == ops[i + 1..];
        Submit(ops[i]);
        i := i + 1;
      }
    }

    /** Whatever the stream did so far, the mutex was free wherever it was acquired and wherever
        a closure ran, and held wherever it was released. */
    lemma NeverReacquires(i: nat)
      requires Valid() && i < |trace|
      ensures MutexAfter(trace[..i]) == Some(trace[i] == Releases)
    {
      MutexDiscipline(trace, i);
    }

    /** The destructor: the receive buffer goes, so does the reference on the transport, and
        the closure given to `Destroy` is scheduled. */
    method Destroy(thenClosure: Option<Closure>)
      requires Valid()
      requires transport.Counted() && Lifetime.Allowed(transport.life, Lifetime.Destroys(id))
      modifies this`recvInited, this`bufferDestroys, this`scheduled, this`model, transport`refs, transport`life
      ensures Valid() && model == old(model).(queues := Destroyed(old(model.queues), thenClosure))
      ensures QueuesOk(lib, old(model.queues)) ==> !recvInited && bufferInits == bufferDestroys
      ensures transport.Counted() && transport.life == Lifetime.Step(old(transport.life), Lifetime.Destroys(id))
      ensures scheduled == old(scheduled) + ToSeq(thenClosure)
    {
      model := model.(queues := Destroyed(model.queues, thenClosure));
      if recvInited {
        bufferDestroys := bufferDestroys + 1;
        recvInited := false;
      }
      var freed := transport.Unref(Lifetime.Destroys(id));
      if thenClosure.Some? {
        scheduled := scheduled + [thenClosure.value];
      }
    }
  }
}
