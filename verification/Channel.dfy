/** One PBoxChannel: the host thread that owns it, the sandbox worker that
    serves it, the atomic state word and the futex, as interleaved atomic steps. */
module Channel {
  import opened Common
  import opened Direct
  import opened Marshal
  import opened Types

  /** The channel state word. DEAD never reaches a worker channel. */
  datatype Word = Idle | Request | Response | Exit | Callback

  datatype ReqType = ReqCall | ReqQuery

  /** The non-atomic part of struct PBoxChannel. The single-answer requests
      (symbol lookup, fd receipt, worker spawn, closure creation) share one
      question field and one answer field. */
  datatype Payload = Payload(
    reqType: ReqType,
    func: nat,
    nargs: nat,
    retType: Type,
    argTypes: seq<Type>,
    args: seq<nat>,
    argStorage: Bytes,
    resultStorage: Bytes,
    callbackId: nat,
    question: Bytes,
    answer: Bytes)
  {
    predicate Shaped() {
      nargs <= MAX_ARGS && |argTypes| == MAX_ARGS && |args| == MAX_ARGS &&
      |argStorage| == ARG_STORAGE && |resultStorage| == RESULT_STORAGE
    }
  }

  const RESULT_STORAGE: nat := 32

  // ---------------------------------------------------------------------
  // The two programs

  datatype HostPc =
    | Ready | Publish | Wake | Load | Wait(seen: Word) | Asleep
    | Dispatch | Release | Collect
    | Peek | Drop                    // an answer read before IDLE is stored
    | ExitWake | Done

  datatype WorkerPc =
    | WLoad | WWait(seen: Word) | WAsleep | WStart | WRun | WResume
    | WStore | WWake | WExited

  /** A sandboxed call in progress: its argument snapshot and the callback
      results it has received; awaiting is the callback it waits for. */
  datatype Act = Act(func: nat, args: seq<Bytes>, results: seq<Bytes>, awaiting: nat)

  datatype State = State(
    word: Word,
    p: Payload,
    host: HostPc,
    worker: WorkerPc,
    act: Option<Act>,
    todo: seq<Op>,
    log: seq<Bytes>,
    thread: nat)

  /** A side's own step, or a futex_wait of it that returns without a wake, as on
      a signal. */
  datatype Tid = Host | Worker | HostSignal | WorkerSignal

  predicate Enabled(st: State, who: Tid) {
    match who
    case Host => st.host != Asleep && st.host != Done
    case Worker => st.worker != WAsleep && st.worker != WExited
    case HostSignal => st.host == Asleep
    case WorkerSignal => st.worker == WAsleep
  }

  /** pbox_call's packing: request type, function, types, offsets, bytes. */
  function PackCallPayload(p: Payload, op: Op): (r: Payload)
    requires p.Shaped() && op.Call? && OpOk(op)
  {
    var n := |op.args|;
    p.(reqType := ReqCall, func := op.func, nargs := n, retType := op.sig.ret,
       argTypes := op.sig.args + p.argTypes[n..],
       args := Rewritten(Offsets(op.sig.args), p.args, n),
       argStorage := Pack(p.argStorage, op.args))
  }

  /** do_ffi_call up to the call: argument bytes found through the offsets go
      through dyfn_prep_call's registers to the callee. */
  function Snapshot(arch: Arch, p: Payload): seq<Bytes>
    requires p.Shaped()
  {
    var ts := p.argTypes[..p.nargs];
    var vs := Unpack(p.argStorage, p.args, ts);
    if Fits(ts, vs) then ReadRegs(arch, ts, Placed(arch, ts, vs, ZeroRegs())) else []
  }

  /** A closure stub called with x: the saved registers are repacked over args,
      nargs and arg_storage. */
  function PackCallback(env: Env, p: Payload, cb: nat, x: seq<Bytes>): Payload
    requires p.Shaped() && cb < |env.callbacks| && Fits(env.callbacks[cb].args, x)
  {
    var ts := env.callbacks[cb].args;
    var saved := Placed(env.arch, ts, x, ZeroRegs());
    p.(callbackId := cb, nargs := |ts|,
       args := Rewritten(Offsets(ts), p.args, |ts|),
       argStorage := Pack(p.argStorage, ReadRegs(env.arch, ts, saved)))
  }

  /** memcpy into result_storage. */
  function WriteResult(p: Payload, r: Bytes): Payload {
    if |r| <= |p.resultStorage| then p.(resultStorage := Splice(p.resultStorage, 0, r)) else p
  }

  function ReadResult(p: Payload, t: Type): Bytes {
    SliceAt(p.resultStorage, 0, t.Size())
  }

  function CallbackArgs(env: Env, p: Payload, id: nat): seq<Bytes>
    requires p.Shaped() && id < |env.callbacks| && |env.callbacks[id].args| <= MAX_ARGS
  {
    Unpack(p.argStorage, p.args, env.callbacks[id].args)
  }

  /** The offsets pass the host's check; otherwise it kills the sandbox. */
  predicate OffsetsPass(p: Payload, n: nat) {
    forall i | 0 <= i < n && i < |p.args| :: p.args[i] < ARG_STORAGE
  }

  /** pbox_dispatch_callback: an id outside the registry is ignored, an offset
      outside arg_storage refused. */
  function DispatchCallback(env: Env, i: nat, p: Payload, m: Memories): (Payload, Memories)
    requires p.Shaped() && forall cb | 0 <= cb < |env.callbacks| :: |env.callbacks[cb].args| <= MAX_ARGS
  {
    var id := p.callbackId;
    if id >= |env.callbacks| || !OffsetsPass(p, |env.callbacks[id].args|) then (p, m)
    else
      var (n, r) := env.host(i, m, id, CallbackArgs(env, p, id));
      (WriteResult(p, r), n)
  }

  /** pbox_futex_wake: one sleeper, and only the other side can be asleep. */
  function WakeWorker(st: State): State {
    if st.worker == WAsleep then st.(worker := WLoad) else st
  }

  function WakeHost(st: State): State {
    if st.host == Asleep then st.(host := Load) else st
  }

  predicate Runnable(env: Env, st: State) {
    st.p.Shaped() && (forall op | op in st.todo :: OpOk(op)) &&
    (st.host in {Ready, Drop, ExitWake, Done} || st.todo != []) &&
    (st.worker in {WRun, WResume} ==> st.act.Some?) &&
    (forall cb | 0 <= cb < |env.callbacks| :: |env.callbacks[cb].args| <= MAX_ARGS) &&
    (st.act.Some? ==> st.worker in {WRun, WWake, WLoad, WAsleep, WResume, WStore} || st.worker.WWait?)
  }

  predicate Early(op: Op) {
    op.Query? && op.early
  }

  /** The answer that sits in the payload for op. */
  function Answer(p: Payload, op: Op): Bytes {
    if op.Call? then ReadResult(p, op.sig.ret) else p.answer
  }

  /** One atomic step of the host thread. */
  function HostStep(env: Env, st: State, m: Memories): (State, Memories)
    requires Runnable(env, st)
  {
    match st.host
    case Ready =>
      if st.todo == [] then (st.(word := Exit, host := ExitWake), m)
      else if st.todo[0].Call? then (st.(p := PackCallPayload(st.p, st.todo[0]), host := Publish), m)
      else (st.(p := st.p.(reqType := ReqQuery, question := st.todo[0].question), host := Publish), m)
    case Publish => (st.(word := Request, host := Wake), m)
    case Wake => (WakeWorker(st.(host := Load)), m)
    case Load =>
      if st.word == Response then (st.(host := if Early(st.todo[0]) then Peek else Release), m)
      else if st.word == Callback && st.todo[0].Call? then (st.(host := Dispatch), m)
      else (st.(host := Wait(st.word)), m)
    case Wait(seen) => (st.(host := if st.word == seen then Asleep else Load), m)
    case Dispatch =>
      var (p, n) := DispatchCallback(env, st.thread, st.p, m);
      (st.(p := p, host := Publish), n)
    case Release => (st.(word := Idle, host := Collect), m)
    case Collect => (st.(log := st.log + [Answer(st.p, st.todo[0])], todo := st.todo[1..], host := Ready), m)
    case Peek => (st.(log := st.log + [Answer(st.p, st.todo[0])], todo := st.todo[1..], host := Drop), m)
    case Drop => (st.(word := Idle, host := Ready), m)
    case ExitWake => (WakeWorker(st.(host := Done)), m)
    case Asleep | Done => (st, m)
  }

  /** Sandboxed code runs until it calls a closure or returns. */
  function RunStep(env: Env, st: State, m: Memories): (State, Memories)
    requires Runnable(env, st) && st.worker == WRun
  {
    var act := st.act.value;
    var (n, reply) := env.callee(st.thread, act.func, m, act.args, act.results);
    match reply
    case Return(i, f) =>
      (st.(p := WriteResult(st.p, ReturnBytes(st.p.retType, i, f)), act := None, worker := WStore), n)
    case Invoke(cb, x) =>
      if cb < |env.callbacks| && Fits(env.callbacks[cb].args, x) then
        (st.(p := PackCallback(env, st.p, cb, x), act := Some(act.(awaiting := cb)), worker := WStore), n)
      else (st, m)
  }

  /** One atomic step of the worker: dispatch_loop, and inside a call the wait
      of dyfn_closure_dispatch. */
  function WorkerStep(env: Env, st: State, m: Memories): (State, Memories)
    requires Runnable(env, st)
  {
    match st.worker
    case WLoad =>
      if st.word == Request then (st.(worker := if st.act.Some? then WResume else WStart), m)
      else if st.word == Exit && st.act.None? then (st.(worker := WExited), m)
      else (st.(worker := WWait(st.word)), m)
    case WWait(seen) => (st.(worker := if st.word == seen then WAsleep else WLoad), m)
    case WStart =>
      if st.p.reqType == ReqCall then
        (st.(act := Some(Act(st.p.func, Snapshot(env.arch, st.p), [], 0)), worker := WRun), m)
      else
        var (n, x) := env.lookup(st.thread, m, st.p.question);
        (st.(p := st.p.(answer := x), worker := WStore), n)
    case WRun => RunStep(env, st, m)
    case WResume =>
      var act := st.act.value;
      var t := if act.awaiting < |env.callbacks| then env.callbacks[act.awaiting].ret else Void;
      (st.(act := Some(act.(results := act.results + [ReadResult(st.p, t)])), worker := WRun), m)
    case WStore => (st.(word := if st.act.Some? then Callback else Response, worker := WWake), m)
    case WWake => (WakeHost(st.(worker := WLoad)), m)
    case WAsleep | WExited => (st, m)
  }

  function Step(env: Env, st: State, m: Memories, who: Tid): (State, Memories)
    requires Runnable(env, st)
  {
    match who
    case Host => HostStep(env, st, m)
    case Worker => WorkerStep(env, st, m)
    case HostSignal => (WakeHost(st), m)
    case WorkerSignal => (WakeWorker(st), m)
  }

  predicate Init(st: State) {
    st.word == Idle && st.p.Shaped() && st.host == Ready && st.worker == WLoad && st.act == None &&
    (forall op | op in st.todo :: OpOk(op))
  }

  /** The step reads or writes a non-atomic field of the channel. */
  predicate Touches(st: State, who: Tid) {
    match who
    case Host => (st.host == Ready && st.todo != []) || st.host in {Dispatch, Collect, Peek}
    case Worker => st.worker in {WStart, WRun, WResume}
    case _ => false
  }

  // ---------------------------------------------------------------------
  // A worker that does not keep the protocol

  /** Offset of arg_storage in struct PBoxChannel, and the structure's size. */
  const ARG_STORAGE_AT: nat := 500
  const CHANNEL_SIZE: nat := 5656

  /** The bytes read for argument i of a dispatched callback. */
  predicate ReadsByte(p: Payload, ts: seq<Type>, i: nat, x: nat) {
    i < |ts| && i < |p.args| && p.args[i] <= x < p.args[i] + ts[i].Size()
  }

  /** Whatever a worker left in the payload, a dispatch that passes the offset
      check reads inside the channel: arg_storage and, at the most, the first seven
      of the bytes behind it. */
  lemma DispatchStaysInChannel(p: Payload, ts: seq<Type>, i: nat, x: nat)
    requires OffsetsPass(p, |ts|) && ReadsByte(p, ts, i, x)
    ensures ARG_STORAGE_AT + x < CHANNEL_SIZE && x < 1024 + 7
  {
  }

  /** The check refuses no dispatch whose reads all begin in arg_storage. */
  lemma DispatchRefusedExact(p: Payload, ts: seq<Type>)
    requires |ts| <= |p.args|
    ensures !OffsetsPass(p, |ts|) <==> exists i :: 0 <= i < |ts| && p.args[i] >= 1024
  {
  }

  /** The check looks at the offset alone: the reads stay inside arg_storage
      exactly when each argument also ends there. */
  lemma DispatchReadsExact(p: Payload, ts: seq<Type>)
    requires |ts| <= |p.args| && OffsetsPass(p, |ts|)
    ensures (forall i: nat, x: nat | ReadsByte(p, ts, i, x) :: x < ARG_STORAGE)
       <==> forall i | 0 <= i < |ts| :: p.args[i] + ts[i].Size() <= ARG_STORAGE
  {
    if forall i: nat, x: nat | ReadsByte(p, ts, i, x) :: x < ARG_STORAGE {
      forall i | 0 <= i < |ts| ensures p.args[i] + ts[i].Size() <= ARG_STORAGE {
        if ts[i].Size() > 0 {
          assert ReadsByte(p, ts, i, p.args[i] + ts[i].Size() - 1);
        }
      }
    }
  }
}
