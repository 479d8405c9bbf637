/** The callback registry on the host, read without its lock by dispatching
    threads, and the per-thread closure tables in the sandbox. */
module Registry {
  import opened Common
  import opened Marshal
  import opened Types

  const MAX_CALLBACKS: nat := 64
  const MAX_CLOSURES: nat := 64

  /** struct PBoxCallback; fn stands for func_ptr and its typed dispatcher. */
  datatype Callback = Callback(fn: nat, ret: Type, args: seq<Type>)

  /** An entry of callbacks. Torn is any moment between the first and the last
      of the stores that fill it. */
  datatype Slot = Unused | Torn | Full(cb: Callback)

  /** A closure stub: its DyfnClosureInfo holds the id and cb's types; cb itself
      is what the stub was registered for. */
  datatype Closure = Closure(callbackId: nat, cb: Callback)

  /** A host thread dispatching a callback: about to compare the id with
      callback_count, or past the comparison and about to read the entry. stub
      is what the calling stub was registered for; none for an id that the
      sandbox made up. */
  datatype Reader = Quiet | Checking(id: nat, stub: Option<Callback>) | Passed(id: nat, stub: Option<Callback>)

  /** A thread's channel: its worker's closure table, and its own dispatch. */
  datatype Worker = Worker(alive: bool, table: seq<Closure>, reader: Reader)

  /** How far pbox_register_callback has come, callback_lock held. */
  datatype Stage = Chosen | Filling | Filled | Published | Asked | Created

  datatype Registration = Registration(t: nat, cb: Callback, id: nat, stage: Stage)

  datatype State = State(slots: seq<Slot>, count: nat, reg: Option<Registration>, workers: seq<Worker>)

  datatype Step =
    | Begin(t: nat, cb: Callback) | StoreFirst | StoreLast | Publish
    | Withdraw | Ask | Allocate | Finish
    | Spawn | Leave(t: nat)
    | CallStub(t: nat, s: nat) | CallAny(t: nat, id: nat) | Check(t: nat) | Read(t: nat)

  predicate At(s: State, stage: Stage) {
    s.reg.Some? && s.reg.value.stage == stage && s.reg.value.id < |s.slots|
  }

  /** Thread t has a channel and is neither registering nor dispatching. */
  predicate Free(s: State, t: nat) {
    t < |s.workers| && s.workers[t].alive && s.workers[t].reader.Quiet? && (s.reg.Some? ==> s.reg.value.t != t)
  }

  predicate Can(s: State, step: Step) {
    match step
    case Begin(t, _) => s.reg.None? && (t < |s.workers| ==> s.workers[t].reader.Quiet?)
    case StoreFirst => At(s, Chosen)
    case StoreLast => At(s, Filling)
    case Publish => At(s, Filled)
    case Withdraw => At(s, Published)
    case Ask => At(s, Published) && s.reg.value.t < |s.workers| && s.workers[s.reg.value.t].alive
    case Allocate => At(s, Asked) && s.reg.value.t < |s.workers|
    case Finish => At(s, Created)
    case Spawn => true
    case Leave(t) => Free(s, t)
    case CallStub(t, k) => Free(s, t) && k < |s.workers[t].table|
    case CallAny(t, _) => Free(s, t)
    case Check(t) => t < |s.workers| && s.workers[t].reader.Checking?
    case Read(t) => t < |s.workers| && s.workers[t].reader.Passed?
  }

  function Staged(s: State, stage: Stage): State
    requires s.reg.Some?
  {
    s.(reg := Some(s.reg.value.(stage := stage)))
  }

  function Reading(s: State, t: nat, reader: Reader): State
    requires t < |s.workers|
  {
    s.(workers := s.workers[t := s.workers[t].(reader := reader)])
  }

  /** One atomic step, or nothing where the step cannot happen. */
  function Do(s: State, step: Step): State {
    if !Can(s, step) then s else
    match step
    case Begin(t, cb) =>
      if s.count >= MAX_CALLBACKS then s
      else s.(reg := Some(Registration(t, cb, s.count, Chosen)))
    case StoreFirst => Staged(s, Filling).(slots := s.slots[s.reg.value.id := Torn])
    case StoreLast => Staged(s, Filled).(slots := s.slots[s.reg.value.id := Full(s.reg.value.cb)])
    case Publish => Staged(s, Published).(count := s.reg.value.id + 1)
    case Withdraw => s.(count := s.reg.value.id, reg := None)
    case Ask => Staged(s, Asked)
    case Allocate =>
      var w := s.workers[s.reg.value.t];
      if |w.table| >= MAX_CLOSURES then Staged(s, Created)
      else Staged(s, Created).(workers :=
        s.workers[s.reg.value.t := w.(table := w.table + [Closure(s.reg.value.id, s.reg.value.cb)])])
    case Finish => s.(reg := None)
    case Spawn => s.(workers := s.workers + [Worker(true, [], Quiet)])
    case Leave(t) => s.(workers := s.workers[t := Worker(false, [], Quiet)])
    case CallStub(t, k) =>
      var c := s.workers[t].table[k];
      Reading(s, t, Checking(c.callbackId, Some(c.cb)))
    case CallAny(t, id) => Reading(s, t, Checking(id, None))
    case Check(t) =>
      var r := s.workers[t].reader;
      Reading(s, t, if r.id < s.count then Passed(r.id, r.stub) else Quiet)
    case Read(t) => Reading(s, t, Quiet)
  }

  /** What a dispatch past its check finds in the entry. */
  function Found(s: State, t: nat): Slot
    requires t < |s.workers| && s.workers[t].reader.Passed?
  {
    var id := s.workers[t].reader.id;
    if id < |s.slots| then s.slots[id] else Unused
  }

  // ---------------------------------------------------------------------

  /** Registrations whose closure may exist: they are never withdrawn. */
  function Settled(s: State): nat {
    if s.reg.Some? && (s.reg.value.stage.Published? || s.reg.value.stage.Asked?) then s.reg.value.id else s.count
  }

  /** Every id below the count is fully initialised, and only the entry being
      registered is ever torn. */
  predicate Initialised(s: State) {
    |s.slots| == MAX_CALLBACKS && s.count <= MAX_CALLBACKS &&
    (forall i | 0 <= i < s.count :: s.slots[i].Full?) &&
    (forall i | 0 <= i < |s.slots| && s.slots[i].Torn? :: At(s, Filling) && s.reg.value.id == i)
  }

  /** The registration in progress against the count. */
  predicate InProgress(s: State) {
    s.reg.Some? ==>
      var r := s.reg.value;
      r.id < |s.slots| &&
      s.count == (if r.stage.Chosen? || r.stage.Filling? || r.stage.Filled? then r.id else r.id + 1) &&
      (!(r.stage.Chosen? || r.stage.Filling?) ==> s.slots[r.id] == Full(r.cb)) &&
      (r.stage.Asked? ==> r.t < |s.workers| && s.workers[r.t].alive)
  }

  /** Entry id holds cb and cannot be withdrawn. */
  predicate Backs(s: State, id: nat, cb: Callback) {
    id < Settled(s) && id < |s.slots| && s.slots[id] == Full(cb)
  }

  predicate WorkerBacked(s: State, w: Worker) {
    (w.table != [] ==> w.alive) &&
    (forall k | 0 <= k < |w.table| :: Backs(s, w.table[k].callbackId, w.table[k].cb)) &&
    (!w.reader.Quiet? && w.reader.stub.Some? ==> Backs(s, w.reader.id, w.reader.stub.value))
  }

  function Total(ws: seq<Worker>, n: nat): nat
    requires n <= |ws|
  {
    if n == 0 then 0 else Total(ws, n - 1) + |ws[n - 1].table|
  }

  /** All closures together fit the settled registrations, one by one. */
  predicate ClosuresFit(s: State) {
    Total(s.workers, |s.workers|) <= Settled(s) &&
    forall t | 0 <= t < |s.workers| :: WorkerBacked(s, s.workers[t])
  }

  predicate Inv(s: State) {
    Initialised(s) && InProgress(s) && ClosuresFit(s)
  }

  lemma {:induction false} TotalUpdate(ws: seq<Worker>, t: nat, w: Worker, n: nat)
    requires t < |ws| && n <= |ws|
    ensures Total(ws[t := w], n) == Total(ws, n) + if t < n then |w.table| - |ws[t].table| else 0
    ensures t < n ==> |ws[t].table| <= Total(ws, n)
  {
    if n > 0 {
      TotalUpdate(ws, t, w, n - 1);
    }
  }

  lemma {:induction false} TotalSpawn(ws: seq<Worker>, w: Worker, n: nat)
    requires n <= |ws|
    ensures Total(ws + [w], n) == Total(ws, n)
  {
    if n > 0 {
      TotalSpawn(ws, w, n - 1);
    }
  }

  /** Workers keep their backing when the settled entries stay as they are. */
  lemma SettledKeeps(s: State, n: State, w: Worker)
    requires WorkerBacked(s, w) && Settled(s) <= Settled(n) && Settled(s) <= |s.slots| == |n.slots|
    requires n.slots[..Settled(s)] == s.slots[..Settled(s)]
    ensures WorkerBacked(n, w)
  {
    assert forall i | 0 <= i < Settled(s) :: n.slots[i] == n.slots[..Settled(s)][i] == s.slots[i];
  }

  /** The steps of pbox_register_callback that leave the workers alone. */
  lemma RegistrationKeeps(s: State, step: Step)
    requires Inv(s) && Can(s, step)
    requires step.Begin? || step.StoreFirst? || step.StoreLast? || step.Publish? || step.Withdraw? || step.Ask? || step.Finish?
    ensures Inv(Do(s, step))
  {
    var n := Do(s, step);
    assert n.workers == s.workers;
    forall t | 0 <= t < |n.workers| ensures WorkerBacked(n, n.workers[t]) {
      SettledKeeps(s, n, s.workers[t]);
    }
  }

  /** dyfn_closure_alloc never finds its table full. */
  lemma AllocateFits(s: State)
    requires Inv(s) && Can(s, Allocate)
    ensures |s.workers[s.reg.value.t].table| < MAX_CLOSURES
  {
    TotalUpdate(s.workers, s.reg.value.t, s.workers[s.reg.value.t], |s.workers|);
  }

  lemma AllocateKeeps(s: State)
    requires Inv(s) && Can(s, Allocate)
    ensures Inv(Do(s, Allocate))
  {
    var n, t := Do(s, Allocate), s.reg.value.t;
    AllocateFits(s);
    TotalUpdate(s.workers, t, n.workers[t], |s.workers|);
    forall u | 0 <= u < |n.workers| ensures WorkerBacked(n, n.workers[u]) {
      SettledKeeps(s, n, s.workers[u]);
    }
  }

  lemma ThreadKeeps(s: State, step: Step)
    requires Inv(s) && Can(s, step) && (step.Spawn? || step.Leave?)
    ensures Inv(Do(s, step))
  {
    var n := Do(s, step);
    if step.Spawn? {
      TotalSpawn(s.workers, Worker(true, [], Quiet), |s.workers|);
    } else {
      TotalUpdate(s.workers, step.t, Worker(false, [], Quiet), |s.workers|);
    }
    forall u | 0 <= u < |s.workers| ensures WorkerBacked(n, s.workers[u]) {
      SettledKeeps(s, n, s.workers[u]);
    }
  }

  lemma DispatchKeeps(s: State, step: Step)
    requires Inv(s) && Can(s, step) && (step.CallStub? || step.CallAny? || step.Check? || step.Read?)
    ensures Inv(Do(s, step))
  {
    var n := Do(s, step);
    TotalUpdate(s.workers, step.t, n.workers[step.t], |s.workers|);
    forall u | 0 <= u < |s.workers| ensures WorkerBacked(n, s.workers[u]) {
      SettledKeeps(s, n, s.workers[u]);
    }
  }

  lemma StepKeeps(s: State, step: Step)
    requires Inv(s)
    ensures Inv(Do(s, step))
  {
    if Can(s, step) {
      match step
      case Allocate => AllocateKeeps(s);
      case Spawn | Leave(_) => ThreadKeeps(s, step);
      case CallStub(_, _) | CallAny(_, _) | Check(_) | Read(_) => DispatchKeeps(s, step);
      case _ => RegistrationKeeps(s, step);
    }
  }

  // ---------------------------------------------------------------------
  // Whole runs

  function Init(): State {
    State(seq(MAX_CALLBACKS, _ => Unused), 0, None, [])
  }

  function Run(s: State, steps: seq<Step>): State
    decreases |steps|
  {
    if steps == [] then s else Do(Run(s, steps[..|steps| - 1]), steps[|steps| - 1])
  }

  lemma {:induction false} RunKeeps(steps: seq<Step>)
    ensures Inv(Run(Init(), steps))
    decreases |steps|
  {
    if steps != [] {
      RunKeeps(steps[..|steps| - 1]);
      StepKeeps(Run(Init(), steps[..|steps| - 1]), steps[|steps| - 1]);
    }
  }

  /** At every moment of every run, each id that passes the unlocked check names
      a fully initialised entry. */
  lemma PublishedIsInitialised(steps: seq<Step>, id: nat)
    requires id < Run(Init(), steps).count
    ensures var s := Run(Init(), steps); id < |s.slots| && s.slots[id].Full?
  {
    RunKeeps(steps);
  }

  /** The table of a thread has room for exactly 64 stubs. */
  lemma AllocateExact(s: State)
    requires Can(s, Allocate)
    ensures var t := s.reg.value.t;
      var was, now := s.workers[t].table, Do(s, Allocate).workers[t].table;
      now == if |was| < 64 then was + [Closure(s.reg.value.id, s.reg.value.cb)] else was
  {
  }

  /** A thread that exits takes its stubs with it; the callbacks stay registered and
      no other thread's stubs change. */
  lemma LeaveExact(s: State, t: nat)
    requires Inv(s) && Free(s, t)
    ensures var n := Do(s, Leave(t));
      && |n.workers| == |s.workers| && n.workers[t] == Worker(false, [], Quiet)
      && (forall u | 0 <= u < |s.workers| && u != t :: n.workers[u] == s.workers[u])
      && n.count == s.count && n.slots == s.slots && n.reg == s.reg
      && Total(n.workers, |n.workers|) == Total(s.workers, |s.workers|) - |s.workers[t].table|
  {
    TotalUpdate(s.workers, t, Worker(false, [], Quiet), |s.workers|);
    assert Can(s, Leave(t)) && Do(s, Leave(t)).workers == s.workers[t := Worker(false, [], Quiet)];
  }

  /** A stub invoked on its own thread passes the check and reads the entry it
      was registered with, whatever registrations run meanwhile. */
  lemma StubsReach(steps: seq<Step>, t: nat)
    requires var s := Run(Init(), steps);
      t < |s.workers| && !s.workers[t].reader.Quiet? && s.workers[t].reader.stub.Some?
    ensures var s := Run(Init(), steps);
      var r := s.workers[t].reader;
      (r.Checking? ==> r.id < s.count) && (r.Passed? ==> Found(s, t) == Full(r.stub.value))
  {
    RunKeeps(steps);
    var s := Run(Init(), steps);
    assert WorkerBacked(s, s.workers[t]);
  }

  /** The steps of thread t's own dispatch. */
  predicate Dispatches(step: Step, t: nat) {
    step == Check(t) || step == Read(t)
  }

  lemma ReaderWaits(s: State, step: Step, t: nat)
    requires t < |s.workers| && !s.workers[t].reader.Quiet? && !Dispatches(step, t)
    ensures var n := Do(s, step); t < |n.workers| && n.workers[t].reader == s.workers[t].reader
  {
  }

  lemma {:induction false} DispatchWaits(s: State, steps: seq<Step>, t: nat)
    requires Inv(s) && t < |s.workers| && !s.workers[t].reader.Quiet?
    requires forall i | 0 <= i < |steps| :: !Dispatches(steps[i], t)
    ensures var n := Run(s, steps); Inv(n) && t < |n.workers| && n.workers[t].reader == s.workers[t].reader
    decreases |steps|
  {
    if steps != [] {
      var m := Run(s, steps[..|steps| - 1]);
      DispatchWaits(s, steps[..|steps| - 1], t);
      StepKeeps(m, steps[|steps| - 1]);
      ReaderWaits(m, steps[|steps| - 1], t);
    }
  }

  predicate DispatchesFor(reader: Reader, cb: Callback) {
    !reader.Quiet? && reader.stub == Some(cb)
  }

  lemma StubCalled(s: State, t: nat, k: nat)
    requires Inv(s) && Free(s, t) && k < |s.workers[t].table|
    ensures var n := Do(s, CallStub(t, k));
      Inv(n) && t < |n.workers| && n.workers[t].reader.Checking? && DispatchesFor(n.workers[t].reader, s.workers[t].table[k].cb)
  {
    StepKeeps(s, CallStub(t, k));
  }

  lemma StubChecked(s: State, t: nat, cb: Callback)
    requires Inv(s) && t < |s.workers| && s.workers[t].reader.Checking? && DispatchesFor(s.workers[t].reader, cb)
    ensures var n := Do(s, Check(t));
      Inv(n) && t < |n.workers| && n.workers[t].reader.Passed? && DispatchesFor(n.workers[t].reader, cb)
  {
    StepKeeps(s, Check(t));
    assert WorkerBacked(s, s.workers[t]);
  }

  lemma StubFinds(s: State, t: nat, cb: Callback)
    requires Inv(s) && t < |s.workers| && s.workers[t].reader.Passed? && DispatchesFor(s.workers[t].reader, cb)
    ensures Found(s, t) == Full(cb)
  {
    assert WorkerBacked(s, s.workers[t]);
  }

  /** Stub k of a thread dispatches the callback it was created for: whatever
      other threads do before the check and between the check and the read, the
      check passes and the read finds that callback. */
  lemma StubDispatches(steps: seq<Step>, t: nat, k: nat, before: seq<Step>, after: seq<Step>)
    requires var s := Run(Init(), steps); Free(s, t) && k < |s.workers[t].table|
    requires forall i | 0 <= i < |before| :: !Dispatches(before[i], t)
    requires forall i | 0 <= i < |after| :: !Dispatches(after[i], t)
    ensures
      var s := Run(Init(), steps);
      var n := Run(Do(Run(Do(s, CallStub(t, k)), before), Check(t)), after);
      t < |n.workers| && n.workers[t].reader.Passed? && Found(n, t) == Full(s.workers[t].table[k].cb)
  {
    var s := Run(Init(), steps);
    var cb := s.workers[t].table[k].cb;
    RunKeeps(steps);
    StubCalled(s, t, k);
    var called := Do(s, CallStub(t, k));
    DispatchWaits(called, before, t);
    var waited := Run(called, before);
    StubChecked(waited, t, cb);
    DispatchWaits(Do(waited, Check(t)), after, t);
    StubFinds(Run(Do(waited, Check(t)), after), t, cb);
  }

  /** Closures of live workers hold ids below the count, of entries with their
      types, and all together never exceed the count or 64. */
  lemma ClosuresHoldIds(steps: seq<Step>, t: nat, k: nat)
    requires var s := Run(Init(), steps); t < |s.workers| && k < |s.workers[t].table|
    ensures var s := Run(Init(), steps);
      var c := s.workers[t].table[k];
      c.callbackId < s.count && c.callbackId < |s.slots| && s.slots[c.callbackId] == Full(c.cb) &&
      Total(s.workers, |s.workers|) <= s.count <= MAX_CALLBACKS
  {
    RunKeeps(steps);
    var s := Run(Init(), steps);
    assert WorkerBacked(s, s.workers[t]);
    assert Backs(s, s.workers[t].table[k].callbackId, s.workers[t].table[k].cb);
  }

  /** Creating a closure never fails. */
  lemma AllocationSucceeds(steps: seq<Step>)
    requires Can(Run(Init(), steps), Allocate)
    ensures var s := Run(Init(), steps);
      var t := s.reg.value.t;
      |Do(s, Allocate).workers[t].table| == |s.workers[t].table| + 1
  {
    RunKeeps(steps);
    AllocateFits(Run(Init(), steps));
  }

  // Ids the sandbox makes up

  /** Every dispatch past its check finds a fully initialised entry. */
  predicate ReadsFull(s: State) {
    forall t | 0 <= t < |s.workers| && s.workers[t].reader.Passed? :: Found(s, t).Full?
  }

  /** In the runs allowed here no registration is withdrawn for want of a channel,
      unless withdrawals is set. */
  predicate Allowed(steps: seq<Step>, withdrawals: bool) {
    withdrawals || forall i | 0 <= i < |steps| :: !steps[i].Withdraw?
  }

  predicate PassedBelow(s: State) {
    forall t | 0 <= t < |s.workers| && s.workers[t].reader.Passed? :: s.workers[t].reader.id < s.count
  }

  lemma PassedStays(s: State, step: Step)
    requires Inv(s) && PassedBelow(s) && !step.Withdraw?
    ensures PassedBelow(Do(s, step))
  {
  }

  lemma {:induction false} PassedStaysBelow(steps: seq<Step>)
    requires Allowed(steps, false)
    ensures PassedBelow(Run(Init(), steps))
    decreases |steps|
  {
    if steps != [] {
      var front, last := steps[..|steps| - 1], steps[|steps| - 1];
      RunKeeps(front);
      assert forall i | 0 <= i < |front| :: front[i] == steps[i];
      PassedStaysBelow(front);
      PassedStays(Run(Init(), front), last);
    }
  }

  /** Thread 1 checks an id that thread 0 has just published, thread 0 withdraws
      it for want of a channel, and the next registration starts to fill it. */
  function TearingRun(cb: Callback): seq<Step> {
    [Spawn, Spawn] + [Begin(0, cb), StoreFirst, StoreLast, Publish] + [CallAny(1, 0), Check(1)] +
    [Withdraw, Begin(0, cb), StoreFirst]
  }

  lemma {:induction false} RunAppend(s: State, a: seq<Step>, b: seq<Step>)
    ensures Run(s, a + b) == Run(Run(s, a), b)
    decreases |b|
  {
    if b == [] {
      assert a + b == a;
    } else {
      assert (a + b)[..|a + b| - 1] == a + b[..|b| - 1];
      RunAppend(s, a, b[..|b| - 1]);
    }
  }

  lemma RunOne(s: State, step: Step)
    ensures Run(s, [step]) == Do(s, step)
  {
    assert [step][..0] == [] && Run(s, []) == s;
  }

  lemma RunTwo(s: State, a: Step, b: Step)
    ensures Run(s, [a, b]) == Do(Do(s, a), b)
  {
    assert [a, b] == [a] + [b];
    RunAppend(s, [a], [b]);
    RunOne(s, a);
    RunOne(Do(s, a), b);
  }

  /** Two threads, the first entry of the registry, and thread 1's dispatch. */
  function Pair(slot: Slot, count: nat, reg: Option<Registration>, reader: Reader): State {
    State(Init().slots[0 := slot], count, reg, [Worker(true, [], Quiet), Worker(true, [], reader)])
  }

  lemma TearingPublishes(cb: Callback)
    ensures var fill := Run(Run(Init(), [Spawn, Spawn]), [Begin(0, cb), StoreFirst, StoreLast, Publish]);
      fill == Pair(Full(cb), 1, Some(Registration(0, cb, 0, Published)), Quiet)
  {
    RunTwo(Init(), Spawn, Spawn);
    var s := Run(Init(), [Spawn, Spawn]);
    assert s == Pair(Unused, 0, None, Quiet);
    assert [Begin(0, cb), StoreFirst, StoreLast, Publish] == [Begin(0, cb), StoreFirst] + [StoreLast, Publish];
    RunAppend(s, [Begin(0, cb), StoreFirst], [StoreLast, Publish]);
    RunTwo(s, Begin(0, cb), StoreFirst);
    assert Do(Do(s, Begin(0, cb)), StoreFirst) == Pair(Torn, 0, Some(Registration(0, cb, 0, Filling)), Quiet);
    RunTwo(Pair(Torn, 0, Some(Registration(0, cb, 0, Filling)), Quiet), StoreLast, Publish);
  }

  lemma TearingChecks(cb: Callback)
    ensures var reg := Some(Registration(0, cb, 0, Published));
      Run(Pair(Full(cb), 1, reg, Quiet), [CallAny(1, 0), Check(1)]) == Pair(Full(cb), 1, reg, Passed(0, None))
  {
    RunTwo(Pair(Full(cb), 1, Some(Registration(0, cb, 0, Published)), Quiet), CallAny(1, 0), Check(1));
  }

  lemma TearingRefills(cb: Callback)
    ensures var s := Pair(Full(cb), 1, Some(Registration(0, cb, 0, Published)), Passed(0, None));
      Run(s, [Withdraw, Begin(0, cb), StoreFirst])
        == Pair(Torn, 0, Some(Registration(0, cb, 0, Filling)), Passed(0, None))
  {
    var s := Pair(Full(cb), 1, Some(Registration(0, cb, 0, Published)), Passed(0, None));
    assert [Withdraw, Begin(0, cb), StoreFirst] == [Withdraw, Begin(0, cb)] + [StoreFirst];
    RunAppend(s, [Withdraw, Begin(0, cb)], [StoreFirst]);
    RunTwo(s, Withdraw, Begin(0, cb));
    RunOne(Do(Do(s, Withdraw), Begin(0, cb)), StoreFirst);
  }

  lemma TearingTears(cb: Callback)
    ensures !ReadsFull(Run(Init(), TearingRun(cb)))
  {
    var a, b := [Spawn, Spawn], [Begin(0, cb), StoreFirst, StoreLast, Publish];
    var c, d := [CallAny(1, 0), Check(1)], [Withdraw, Begin(0, cb), StoreFirst];
    RunAppend(Init(), a + b + c, d);
    RunAppend(Init(), a + b, c);
    RunAppend(Init(), a, b);
    TearingPublishes(cb);
    TearingChecks(cb);
    TearingRefills(cb);
    var s := Run(Init(), TearingRun(cb));
    assert s.workers[1].reader.Passed? && Found(s, 1) == Torn;
  }

  /** A made-up id always finds a fully initialised entry, in every run, exactly
      when no registration is withdrawn for want of a channel. */
  lemma MadeUpIdsExact(withdrawals: bool)
    ensures (forall steps | Allowed(steps, withdrawals) :: ReadsFull(Run(Init(), steps))) <==> !withdrawals
  {
    if withdrawals {
      var steps := TearingRun(Callback(0, Void, []));
      TearingTears(Callback(0, Void, []));
      assert Allowed(steps, withdrawals);
    } else {
      forall steps | Allowed(steps, withdrawals) ensures ReadsFull(Run(Init(), steps)) {
        RunKeeps(steps);
        PassedStaysBelow(steps);
      }
    }
  }

  // ---------------------------------------------------------------------
  // One registration without interruption

  class CallbackRegistry {
    var s: State

    constructor ()
      ensures s == Init() && Inv(s)
    {
      s := Init();
      RunKeeps([]);
    }

    /** pbox_register_callback on thread t; channel says whether the thread has or
        gets one. It fails only when 64 callbacks are registered or there is no
        channel; otherwise the stub reaches cb, and no other entry, count or
        table changes. */
    method RegisterCallback(t: nat, cb: Callback, channel: bool) returns (stub: Option<nat>)
      requires Inv(s) && s.reg.None? && |cb.args| <= MAX_ARGS
      requires t < |s.workers| && s.workers[t].reader.Quiet? && (channel ==> s.workers[t].alive)
      modifies this
      ensures Inv(s) && s.reg.None?
      ensures stub.Some? <==> old(s).count < MAX_CALLBACKS && channel
      ensures s.count == old(s).count + if stub.Some? then 1 else 0
      ensures s.slots[..old(s).count] == old(s).slots[..old(s).count]
      ensures stub.None? ==> s.workers == old(s).workers
      ensures stub.Some? ==>
        stub.value == |old(s).workers[t].table| && s.slots[old(s).count] == Full(cb) &&
        s.workers == old(s).workers[t := old(s).workers[t].(table :=
          old(s).workers[t].table + [Closure(old(s).count, cb)])]
    {
      var id := PublishId(t, cb);
      if id.None? {
        return None;
      }
      if !channel {
        Take(Withdraw);
        return None;
      }
      stub := CreateClosure();
    }

    /** The cap check, the stores that fill the entry, and the count. */
    method PublishId(t: nat, cb: Callback) returns (id: Option<nat>)
      requires Inv(s) && s.reg.None? && t < |s.workers| && s.workers[t].reader.Quiet?
      modifies this
      ensures Inv(s) && s.workers == old(s).workers && s.slots[..old(s).count] == old(s).slots[..old(s).count]
      ensures id.Some? <==> old(s).count < MAX_CALLBACKS
      ensures id.None? ==> s == old(s)
      ensures id.Some? ==> id.value == old(s).count && s.count == old(s).count + 1 &&
                           s.reg == Some(Registration(t, cb, id.value, Published)) && s.slots[id.value] == Full(cb)
    {
      Take(Begin(t, cb));
      if s.reg.None? {
        return None;
      }
      id := Some(s.reg.value.id);
      Take(StoreFirst);
      Take(StoreLast);
      Take(Publish);
    }

    /** The request to the sandbox and its answer. */
    method CreateClosure() returns (stub: Option<nat>)
      requires Inv(s) && Can(s, Ask)
      modifies this
      ensures Inv(s)
      ensures var r, w := old(s).reg.value, old(s).workers[old(s).reg.value.t];
        stub == Some(|w.table|) &&
        s == old(s).(reg := None, workers := old(s).workers[r.t := w.(table := w.table + [Closure(r.id, r.cb)])])
    {
      Take(Ask);
      AllocateFits(s);
      stub := Some(|s.workers[s.reg.value.t].table|);
      Take(Allocate);
      Take(Finish);
    }

    /** Thread t calls its stub k and nothing else happens meanwhile: the entry
        the host reads. */
    method Invoke(t: nat, k: nat) returns (found: Slot)
      requires Inv(s) && Free(s, t) && k < |s.workers[t].table|
      modifies this
      ensures s == old(s) && found == Full(s.workers[t].table[k].cb)
    {
      assert WorkerBacked(s, s.workers[t]) && Backs(s, s.workers[t].table[k].callbackId, s.workers[t].table[k].cb);
      ghost var was := s.workers;
      Take(CallStub(t, k));
      Take(Check(t));
      found := Found(s, t);
      Take(Read(t));
      assert s.workers == was;
    }

    /** The first 64 registrations of a sandbox succeed and no more do; each stub
        handed out dispatches the callback it was given for. */
    method RegisterAll(cbs: seq<Callback>) returns (stubs: seq<Option<nat>>, found: seq<Slot>)
      requires s == Init() && forall i | 0 <= i < |cbs| :: |cbs[i].args| <= MAX_ARGS
      modifies this
      ensures |stubs| == |found| == |cbs|
      ensures forall i | 0 <= i < |cbs| :: stubs[i].Some? <==> i < 64
      ensures forall i | 0 <= i < |cbs| && i < 64 :: found[i] == Full(cbs[i])
    {
      RunKeeps([]);
      Take(Spawn);
      stubs, found := [], [];
      for i := 0 to |cbs|
        invariant Inv(s) && s.reg.None? && |s.workers| == 1 && Free(s, 0)
        invariant |stubs| == |found| == i && s.count == |s.workers[0].table| == if i < 64 then i else 64
        invariant forall j | 0 <= j < i :: stubs[j].Some? <==> j < 64
        invariant forall j | 0 <= j < i && j < 64 :: found[j] == Full(cbs[j])
      {
        var stub := RegisterCallback(0, cbs[i], true);
        var x := Unused;
        if stub.Some? {
          x := Invoke(0, stub.value);
        }
        stubs, found := stubs + [stub], found + [x];
      }
    }

    method Take(step: Step)
      requires Inv(s)
      modifies this
      ensures s == Do(old(s), step) && Inv(s)
    {
      StepKeeps(s, step);
      s := Do(s, step);
    }
  }
}
