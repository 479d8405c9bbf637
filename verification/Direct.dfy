/** The reference the call channel is measured against: threads that call the
    sandboxed functions directly, with host callbacks run in place, on one host
    memory and one sandbox memory. */
module Direct {
  import opened Common
  import opened Marshal
  import opened Types

  datatype Sig = Sig(ret: Type, args: seq<Type>)

  /** What a host thread asks for: a call, or one of the single-answer requests.
      early marks the request whose answer is read before the channel is put
      back to IDLE. */
  datatype Op = Call(func: nat, sig: Sig, args: seq<Bytes>) | Query(question: Bytes, early: bool)

  /** What sandboxed code does next: call a host callback, or return with its
      integer and floating-point result registers set. */
  datatype Reply = Invoke(cb: nat, args: seq<Bytes>) | Return(intVal: Slot, floatVal: Slot)

  /** What all host threads and all workers work on. Both ends reach both parts:
      memory mapped in the two processes is how callbacks and sandboxed code
      exchange data. */
  datatype Memories = Memories(host: Bytes, box: Bytes)

  /** The code at the two ends. Sandboxed code may depend on the thread it runs
      for, on both memories, on its arguments and on every callback result so
      far, and may change both memories; so may a host callback. */
  datatype Env = Env(
    arch: Arch,
    callee: (nat, nat, Memories, seq<Bytes>, seq<Bytes>) -> (Memories, Reply),
    lookup: (nat, Memories, Bytes) -> (Memories, Bytes),
    callbacks: seq<Sig>,
    host: (nat, Memories, nat, seq<Bytes>) -> (Memories, Bytes))

  /** Callbacks go to registered ids with arguments of the registered types, and
      return a value of the registered type. */
  ghost predicate WellTyped(env: Env) {
    (forall i, f, m, a, rs ::
      var reply := env.callee(i, f, m, a, rs).1;
      reply.Invoke? ==> reply.cb < |env.callbacks| && Fits(env.callbacks[reply.cb].args, reply.args)) &&
    (forall i, m, cb: nat, a | cb < |env.callbacks| :: |env.host(i, m, cb, a).1| == env.callbacks[cb].ret.Size()) &&
    (forall cb | 0 <= cb < |env.callbacks| :: |env.callbacks[cb].args| <= MAX_ARGS)
  }

  predicate OpOk(op: Op) {
    op.Call? ==> Fits(op.sig.args, op.args)
  }

  function ReturnBytes(t: Type, intVal: Slot, floatVal: Slot): Bytes {
    (if t.IsFloat() then floatVal else intVal)[..t.Size()]
  }

  lemma ReturnBytesMeaning(ret: Type, intVal: Slot, floatVal: Slot, x: Bytes)
    ensures x == ReturnBytes(ret, intVal, floatVal) <==> ReturnValue(ret, intVal, floatVal, x)
  {
    assert floatVal[..8] == floatVal && intVal[..8] == intVal;
  }

  // ---------------------------------------------------------------------
  // Segment by segment, any number of threads

  datatype Pending = Pending(cb: nat, args: seq<Bytes>)

  /** A thread calling directly: what is left to do, the callback results the
      current call has received, the callback it is in, and the results so far. */
  datatype Task = Task(thread: nat, todo: seq<Op>, results: seq<Bytes>, pending: Option<Pending>, log: seq<Bytes>)

  /** One segment: sandboxed code up to its next callback or return, one host
      callback, or one request. */
  function Segment(env: Env, t: Task, m: Memories): (Task, Memories) {
    if t.todo == [] then (t, m)
    else match t.todo[0]
      case Query(q, _) =>
        var (n, x) := env.lookup(t.thread, m, q);
        (Task(t.thread, t.todo[1..], [], None, t.log + [x]), n)
      case Call(f, sig, a) =>
        match t.pending
        case Some(Pending(cb, x)) =>
          var (n, r) := env.host(t.thread, m, cb, x);
          (t.(results := t.results + [r], pending := None), n)
        case None =>
          var (n, reply) := env.callee(t.thread, f, m, a, t.results);
          match reply
          case Return(i, d) => (Task(t.thread, t.todo[1..], [], None, t.log + [ReturnBytes(sig.ret, i, d)]), n)
          case Invoke(cb, x) => (t.(pending := Some(Pending(cb, x))), n)
  }

  datatype World = World(tasks: seq<Task>, mem: Memories)

  /** Thread i runs its next segment. */
  function Turned(env: Env, w: World, i: nat): (r: World)
    ensures |r.tasks| == |w.tasks|
  {
    if i >= |w.tasks| then w
    else var (t, m) := Segment(env, w.tasks[i], w.mem); World(w.tasks[i := t], m)
  }

  /** The segments run in the given order of threads. */
  function Interleaved(env: Env, w: World, order: seq<nat>): (r: World)
    ensures |r.tasks| == |w.tasks|
    decreases |order|
  {
    if order == [] then w else Interleaved(env, Turned(env, w, order[0]), order[1..])
  }

  predicate Begins(t: Task, t': Task) {
    t.pending.None? && t'.pending.Some?
  }

  /** Callbacks begun along an order. */
  function Callbacks(env: Env, w: World, order: seq<nat>): nat
    decreases |order|
  {
    if order == [] then 0
    else
      var n, i := Turned(env, w, order[0]), order[0];
      (if i < |w.tasks| && Begins(w.tasks[i], n.tasks[i]) then 1 else 0) + Callbacks(env, n, order[1..])
  }

  // ---------------------------------------------------------------------
  // Call by call, one thread

  /** From callback results rs on, function f makes exactly k callbacks and
      returns. A call that goes on for ever makes no number of them. */
  predicate Makes(env: Env, i: nat, f: nat, a: seq<Bytes>, rs: seq<Bytes>, m: Memories, k: nat)
    decreases k
  {
    var (n, reply) := env.callee(i, f, m, a, rs);
    match reply
    case Return(_, _) => k == 0
    case Invoke(cb, x) =>
      k > 0 && var (n', r) := env.host(i, n, cb, x); Makes(env, i, f, a, rs + [r], n', k - 1)
  }

  /** The call itself: the memories it leaves and the bytes it returns. */
  function Called(env: Env, i: nat, f: nat, a: seq<Bytes>, rs: seq<Bytes>, t: Type, m: Memories, k: nat): (Memories, Bytes)
    requires Makes(env, i, f, a, rs, m, k)
    decreases k
  {
    var (n, reply) := env.callee(i, f, m, a, rs);
    match reply
    case Return(v, d) => (n, ReturnBytes(t, v, d))
    case Invoke(cb, x) =>
      var (n', r) := env.host(i, n, cb, x);
      Called(env, i, f, a, rs + [r], t, n', k - 1)
  }

  predicate OpMakes(env: Env, i: nat, op: Op, m: Memories, k: nat) {
    if op.Call? then Makes(env, i, op.func, op.args, [], m, k) else k == 0
  }

  function OpDone(env: Env, i: nat, op: Op, m: Memories, k: nat): (Memories, Bytes)
    requires OpMakes(env, i, op, m, k)
  {
    match op
    case Call(f, sig, a) => Called(env, i, f, a, [], sig.ret, m, k)
    case Query(q, _) => env.lookup(i, m, q)
  }

  /** Operation j of thread i's script makes ks[j] callbacks. */
  predicate ScriptMakes(env: Env, i: nat, ops: seq<Op>, m: Memories, ks: seq<nat>)
    decreases |ops|
  {
    |ks| == |ops| &&
    (ops != [] ==>
      OpMakes(env, i, ops[0], m, ks[0]) && ScriptMakes(env, i, ops[1..], OpDone(env, i, ops[0], m, ks[0]).0, ks[1..]))
  }

  /** Just calling the functions, one after the other. */
  function ScriptDone(env: Env, i: nat, ops: seq<Op>, m: Memories, ks: seq<nat>): (Memories, seq<Bytes>)
    requires ScriptMakes(env, i, ops, m, ks)
    decreases |ops|
  {
    if ops == [] then (m, [])
    else
      var (m1, x) := OpDone(env, i, ops[0], m, ks[0]);
      var (m2, xs) := ScriptDone(env, i, ops[1..], m1, ks[1..]);
      (m2, [x] + xs)
  }

  function Sum(ks: seq<nat>): nat {
    if ks == [] then 0 else ks[0] + Sum(ks[1..])
  }

  // ---------------------------------------------------------------------
  // What a call returns

  /** The segment in which the function returns adds its value to the results. */
  lemma SegmentReturns(env: Env, t: Task, m: Memories)
    requires t.todo != [] && t.todo[0].Call? && t.pending.None?
    requires env.callee(t.thread, t.todo[0].func, m, t.todo[0].args, t.results).1.Return?
    ensures
      var reply := env.callee(t.thread, t.todo[0].func, m, t.todo[0].args, t.results).1;
      var n := Segment(env, t, m).0;
      && n.todo == t.todo[1..] && |n.log| == |t.log| + 1 && n.log[..|t.log|] == t.log
      && ReturnValue(t.todo[0].sig.ret, reply.intVal, reply.floatVal, n.log[|t.log|])
  {
    var reply := env.callee(t.thread, t.todo[0].func, m, t.todo[0].args, t.results).1;
    ReturnBytesMeaning(t.todo[0].sig.ret, reply.intVal, reply.floatVal, Segment(env, t, m).0.log[|t.log|]);
  }

  /** A whole call has the value the function returns with once it has had all of
      its callback results. */
  lemma {:induction false} CallReturns(env: Env, i: nat, f: nat, a: seq<Bytes>, rs: seq<Bytes>, t: Type, m: Memories, k: nat)
    returns (last: Memories, results: seq<Bytes>)
    requires Makes(env, i, f, a, rs, m, k)
    ensures rs <= results && |results| == |rs| + k
    ensures
      var (n, reply) := env.callee(i, f, last, a, results);
      reply.Return? && Called(env, i, f, a, rs, t, m, k).0 == n &&
      ReturnValue(t, reply.intVal, reply.floatVal, Called(env, i, f, a, rs, t, m, k).1)
    decreases k
  {
    var (n, reply) := env.callee(i, f, m, a, rs);
    match reply
    case Return(v, d) =>
      last, results := m, rs;
      ReturnBytesMeaning(t, v, d, ReturnBytes(t, v, d));
    case Invoke(cb, x) =>
      var (n', r) := env.host(i, n, cb, x);
      last, results := CallReturns(env, i, f, a, rs + [r], t, n', k - 1);
  }
}
