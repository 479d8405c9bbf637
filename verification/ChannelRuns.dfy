/** What every step of the channel's two programs keeps, and which segment of
    the direct execution it performs. */
module ChannelRuns {
  import opened Channel
  import opened Common
  import opened Direct
  import opened Marshal
  import opened Types

  /** How far the current operation has come. */
  datatype Phase = Between | Asked | Running | Calling | Answered | Returned

  function PhaseOf(st: State): Phase {
    match st.host
    case Ready | Drop | ExitWake | Done => Between
    case Publish => if st.act.None? then Asked else Answered
    case Dispatch => Calling
    case Release | Collect | Peek => Returned
    case Wake | Load | Wait(_) | Asleep =>
      match st.word
      case Callback => Calling
      case Request =>
        if st.act.None? then (if st.worker == WStore then Returned else Asked)
        else if st.worker == WRun then Running
        else if st.worker == WStore then Calling
        else Answered
      case _ => Returned
  }

  predicate Waiting(st: State) {
    st.host in {Wake, Load, Asleep} || st.host.Wait?
  }

  /** The worker is between handoffs: waiting, or about to deliver a late wake. */
  predicate Passive(st: State) {
    st.worker in {WLoad, WAsleep, WWake} || st.worker.WWait?
  }

  /** Who holds the baton, by state word and program counters. */
  predicate Turns(st: State) {
    (match st.word
     case Idle => st.host in {Ready, Publish, Collect} && Passive(st) && st.act.None?
     case Request => Waiting(st) && st.worker != WExited
     case Callback => (Waiting(st) || st.host in {Dispatch, Publish}) && Passive(st) && st.act.Some?
     case Response => (Waiting(st) || st.host in {Release, Peek, Drop}) && Passive(st) && st.act.None?
     case Exit => st.host in {ExitWake, Done} && (Passive(st) || st.worker == WExited) && st.act.None?) &&
    (st.worker == WStart ==> st.act.None?) &&
    (st.worker in {WRun, WResume} ==> st.act.Some?)
  }

  /** A side about to sleep, or asleep, will not be left there. */
  predicate Wakes(st: State) {
    (st.host.Wait? ==> st.host.seen == Request) &&
    (st.worker.WWait? ==> st.worker.seen !in {Request, Exit}) &&
    (st.host == Asleep ==> st.word == Request || st.worker == WWake) &&
    (st.worker == WAsleep ==> (st.word == Request ==> st.host == Wake) && (st.word == Exit ==> st.host == ExitWake))
  }

  /** The payload holds the current operation. */
  predicate Encodes(env: Env, p: Payload, op: Op)
    requires p.Shaped()
  {
    match op
    case Call(f, sig, a) =>
      p.reqType == ReqCall && p.func == f && p.retType == sig.ret && Snapshot(env.arch, p) == a
    case Query(q, _) => p.reqType == ReqQuery && p.question == q
  }

  /** The worker is in the current operation's call. */
  predicate InCall(st: State)
    requires st.todo != []
  {
    st.todo[0].Call? && st.act.Some? && st.p.retType == st.todo[0].sig.ret &&
    st.act.value.func == st.todo[0].func && st.act.value.args == st.todo[0].args
  }

  predicate InCallback(env: Env, act: Option<Act>) {
    act.Some? && act.value.awaiting < |env.callbacks|
  }

  predicate AsksFor(env: Env, p: Payload, act: Option<Act>)
    requires InCallback(env, act)
  {
    p.callbackId == act.value.awaiting && OffsetsPass(p, |env.callbacks[p.callbackId].args|)
  }

  predicate Holds(env: Env, st: State)
    requires Runnable(env, st)
  {
    match PhaseOf(st)
    case Between => st.host in {ExitWake, Done} ==> st.todo == []
    case Returned => true
    case Asked => Encodes(env, st.p, st.todo[0])
    case Running => InCall(st)
    case Answered => InCall(st) && InCallback(env, st.act)
    case Calling => InCall(st) && InCallback(env, st.act) && AsksFor(env, st.p, st.act)
  }

  /** An early request's answer, and no other, is read before IDLE is stored. */
  predicate InOrder(st: State) {
    (st.host == Peek ==> st.todo != [] && Early(st.todo[0])) &&
    (st.host in {Release, Collect} ==> st.todo != [] && !Early(st.todo[0]))
  }

  predicate Inv(env: Env, st: State) {
    Runnable(env, st) && Turns(st) && Wakes(st) && Holds(env, st) && InOrder(st)
  }

  // ---------------------------------------------------------------------
  // The direct execution a channel state stands for

  function AsTask(env: Env, st: State): Task
    requires Inv(env, st)
  {
    match PhaseOf(st)
    case Between | Asked => Task(st.thread, st.todo, [], None, st.log)
    case Running => Task(st.thread, st.todo, st.act.value.results, None, st.log)
    case Calling =>
      var id := st.p.callbackId;
      Task(st.thread, st.todo, st.act.value.results, Some(Pending(id, CallbackArgs(env, st.p, id))), st.log)
    case Answered =>
      var r := ReadResult(st.p, env.callbacks[st.act.value.awaiting].ret);
      Task(st.thread, st.todo, st.act.value.results + [r], None, st.log)
    case Returned => Task(st.thread, st.todo[1..], [], None, st.log + [Answer(st.p, st.todo[0])])
  }

  /** The steps in which user code runs: all others are protocol only. */
  predicate RunsSegment(st: State, who: Tid) {
    match who
    case Host => st.host == Dispatch
    case Worker => st.worker == WRun || (st.worker == WStart && st.p.reqType == ReqQuery)
    case _ => false
  }

  /** The step performs the next segment of the direct execution, or none of it
      and touches neither memory. */
  predicate Refines(env: Env, st: State, m: Memories, who: Tid)
    requires Inv(env, st)
  {
    var (n, m') := Step(env, st, m, who);
    Inv(env, n) && (AsTask(env, n), m') == if RunsSegment(st, who) then Segment(env, AsTask(env, st), m) else (AsTask(env, st), m)
  }

  // ---------------------------------------------------------------------
  // One step

  lemma CallRoundTrip(arch: Arch, p: Payload, op: Op)
    requires p.Shaped() && op.Call? && OpOk(op)
    ensures PackCallPayload(p, op).Shaped()
    ensures Snapshot(arch, PackCallPayload(p, op)) == op.args
  {
    var r, ts := PackCallPayload(p, op), op.sig.args;
    assert r.argTypes[..r.nargs] == ts;
    assert r.args[..|ts|] == Offsets(ts);
    PackRoundTrip(p.argStorage, ts, op.args, r.args);
    RegisterRoundTrip(arch, ts, op.args, ZeroRegs(), Placed(arch, ts, op.args, ZeroRegs()));
  }

  lemma CallbackRoundTrip(env: Env, p: Payload, cb: nat, x: seq<Bytes>)
    requires p.Shaped() && cb < |env.callbacks| && Fits(env.callbacks[cb].args, x)
    ensures
      var r := PackCallback(env, p, cb, x);
      r.Shaped() && CallbackArgs(env, r, cb) == x && OffsetsPass(r, |x|)
  {
    var r, ts := PackCallback(env, p, cb, x), env.callbacks[cb].args;
    RegisterRoundTrip(env.arch, ts, x, ZeroRegs(), Placed(env.arch, ts, x, ZeroRegs()));
    assert r.args[..|ts|] == Offsets(ts);
    PackRoundTrip(p.argStorage, ts, x, r.args);
    forall i | 0 <= i < |ts| ensures r.args[i] < ARG_STORAGE {
      assert r.args[i] == r.args[..|ts|][i] == Offset(ts, i);
      FlatLength(ts, x, i);
    }
  }

  lemma ResultRoundTrip(p: Payload, r: Bytes, t: Type)
    requires p.Shaped() && |r| == t.Size()
    ensures WriteResult(p, r).Shaped() && ReadResult(WriteResult(p, r), t) == r
  {
  }

  /** Moving a program counter within a phase changes nothing that matters. */
  predicate SamePhase(st: State, st': State) {
    PhaseOf(st') == PhaseOf(st) && st'.p == st.p && st'.act == st.act && st'.todo == st.todo && st'.log == st.log &&
    st'.thread == st.thread
  }

  lemma HostWaits(env: Env, st: State, m: Memories)
    requires WellTyped(env) && Inv(env, st) && (st.host in {Load, Asleep, Done} || st.host.Wait?)
    ensures Refines(env, st, m, Host)
  {
    assert SamePhase(st, HostStep(env, st, m).0);
  }

  lemma HostWakes(env: Env, st: State, m: Memories)
    requires WellTyped(env) && Inv(env, st) && st.host in {Wake, ExitWake}
    ensures Refines(env, st, m, Host)
  {
    assert SamePhase(st, HostStep(env, st, m).0);
  }

  lemma HostStarts(env: Env, st: State, m: Memories)
    requires WellTyped(env) && Inv(env, st) && st.host == Ready
    ensures Refines(env, st, m, Host)
  {
    if st.todo != [] && st.todo[0].Call? {
      CallRoundTrip(env.arch, st.p, st.todo[0]);
    }
  }

  lemma HostPublishes(env: Env, st: State, m: Memories)
    requires WellTyped(env) && Inv(env, st) && st.host == Publish
    ensures Refines(env, st, m, Host)
  {
  }

  lemma HostReleases(env: Env, st: State, m: Memories)
    requires WellTyped(env) && Inv(env, st) && st.host in {Release, Drop}
    ensures Refines(env, st, m, Host)
  {
  }

  lemma HostDispatches(env: Env, st: State, m: Memories)
    requires WellTyped(env) && Inv(env, st) && st.host == Dispatch
    ensures Refines(env, st, m, Host)
  {
    var id := st.p.callbackId;
    var (n, r) := env.host(st.thread, m, id, CallbackArgs(env, st.p, id));
    ResultRoundTrip(st.p, r, env.callbacks[id].ret);
  }

  lemma HostCollects(env: Env, st: State, m: Memories)
    requires WellTyped(env) && Inv(env, st) && st.host in {Collect, Peek}
    ensures Refines(env, st, m, Host)
  {
  }

  lemma WorkerWaits(env: Env, st: State, m: Memories)
    requires WellTyped(env) && Inv(env, st) && (st.worker in {WLoad, WAsleep, WExited} || st.worker.WWait?)
    ensures Refines(env, st, m, Worker)
  {
    assert SamePhase(st, WorkerStep(env, st, m).0);
  }

  lemma WorkerWakes(env: Env, st: State, m: Memories)
    requires WellTyped(env) && Inv(env, st) && st.worker == WWake
    ensures Refines(env, st, m, Worker)
  {
    assert SamePhase(st, WorkerStep(env, st, m).0);
  }

  lemma WorkerStores(env: Env, st: State, m: Memories)
    requires WellTyped(env) && Inv(env, st) && st.worker == WStore
    ensures Refines(env, st, m, Worker)
  {
    assert SamePhase(st, WorkerStep(env, st, m).0);
  }

  lemma WorkerStartsCall(env: Env, st: State, m: Memories)
    requires WellTyped(env) && Inv(env, st) && st.worker == WStart && st.p.reqType == ReqCall
    ensures Refines(env, st, m, Worker)
  {
  }

  lemma WorkerAnswers(env: Env, st: State, m: Memories)
    requires WellTyped(env) && Inv(env, st) && st.worker == WStart && st.p.reqType == ReqQuery
    ensures Refines(env, st, m, Worker)
  {
  }

  lemma WorkerResumes(env: Env, st: State, m: Memories)
    requires WellTyped(env) && Inv(env, st) && st.worker == WResume
    ensures Refines(env, st, m, Worker)
  {
  }

  lemma WorkerRuns(env: Env, st: State, m: Memories)
    requires WellTyped(env) && Inv(env, st) && st.worker == WRun
    ensures Refines(env, st, m, Worker)
  {
    var act := st.act.value;
    match env.callee(st.thread, act.func, m, act.args, act.results).1 {
      case Return(i, f) => ResultRoundTrip(st.p, ReturnBytes(st.p.retType, i, f), st.p.retType);
      case Invoke(cb, x) => CallbackRoundTrip(env, st.p, cb, x);
    }
  }

  predicate IsSignal(who: Tid) {
    who.HostSignal? || who.WorkerSignal?
  }

  lemma SignalWaits(env: Env, st: State, m: Memories, who: Tid)
    requires WellTyped(env) && Inv(env, st) && IsSignal(who)
    ensures Refines(env, st, m, who)
  {
    assert SamePhase(st, Step(env, st, m, who).0);
  }

  /** Every step of either side keeps the invariant and is a step of the direct
      execution or none. */
  lemma StepRefines(env: Env, st: State, m: Memories, who: Tid)
    requires WellTyped(env) && Inv(env, st)
    ensures Refines(env, st, m, who)
  {
    match who
    case Host =>
      match st.host {
        case Ready => HostStarts(env, st, m);
        case Publish => HostPublishes(env, st, m);
        case Release | Drop => HostReleases(env, st, m);
        case Dispatch => HostDispatches(env, st, m);
        case Collect | Peek => HostCollects(env, st, m);
        case Wake | ExitWake => HostWakes(env, st, m);
        case _ => HostWaits(env, st, m);
      }
    case Worker =>
      match st.worker {
        case WStart => if st.p.reqType == ReqCall { WorkerStartsCall(env, st, m); } else { WorkerAnswers(env, st, m); }
        case WRun => WorkerRuns(env, st, m);
        case WResume => WorkerResumes(env, st, m);
        case WStore => WorkerStores(env, st, m);
        case WWake => WorkerWakes(env, st, m);
        case _ => WorkerWaits(env, st, m);
      }
    case _ => SignalWaits(env, st, m, who);
  }

  // ---------------------------------------------------------------------
  // What a step costs

  /** State-word stores the current operation still takes if it makes no further
      callback. */
  function OpStores(st: State): nat {
    match PhaseOf(st)
    case Between => 0
    case Returned => if st.word == Request then 2 else if st.word == Response then 1 else 0
    case Running => 2
    case Calling => if st.word == Request then 4 else 3
    case Asked | Answered => if st.word == Request then 2 else 3
  }

  function StoresLeft(st: State): nat {
    match st.host
    case ExitWake | Done => 0
    case Ready => 1 + 3 * |st.todo|
    case Drop => 2 + 3 * |st.todo|
    case _ => OpStores(st) + 1 + 3 * if st.todo == [] then 0 else |st.todo| - 1
  }

  /** Steps a side can take before the next store: a wait that will fail is
      worth more than one that will sleep. */
  function HostRank(st: State): nat {
    match st.host
    case Ready => 2
    case Publish | Drop => 1
    case Wake | ExitWake => 9
    case Load => 4
    case Wait(seen) => if st.word == seen then 1 else 5
    case Dispatch | Release | Collect | Peek => 3
    case Asleep | Done => 0
  }

  function WorkerRank(st: State): nat {
    match st.worker
    case WLoad => 4
    case WWait(seen) => if st.word == seen then 1 else 5
    case WStart | WResume => 3
    case WRun => 2
    case WStore => 1
    case WWake => 9
    case WAsleep | WExited => 0
  }

  function Rank(st: State): nat {
    16 * StoresLeft(st) + HostRank(st) + WorkerRank(st)
  }

  predicate Stores(st: State, who: Tid) {
    match who
    case Host => st.host in {Publish, Release, Drop} || (st.host == Ready && st.todo == [])
    case Worker => st.worker == WStore
    case _ => false
  }

  /** The step in which sandboxed code calls a closure. */
  predicate Invokes(env: Env, st: State, m: Memories, who: Tid)
    requires Inv(env, st)
  {
    RunsSegment(st, who) && Begins(AsTask(env, st), Segment(env, AsTask(env, st), m).0)
  }

  /** A store uses one up, no other step does; a callback adds the two it takes. */
  lemma HostStoreSpends(env: Env, st: State, m: Memories)
    requires WellTyped(env) && Inv(env, st) && Stores(st, Host)
    ensures StoresLeft(HostStep(env, st, m).0) == StoresLeft(st) - 1
  {
  }

  lemma HostMoveSpends(env: Env, st: State, m: Memories)
    requires WellTyped(env) && Inv(env, st) && !Stores(st, Host)
    ensures StoresLeft(HostStep(env, st, m).0) == StoresLeft(st)
  {
    if st.host == Dispatch { StepRefines(env, st, m, Host); }
  }

  lemma WorkerStoreSpends(env: Env, st: State, m: Memories)
    requires WellTyped(env) && Inv(env, st) && st.worker == WStore
    ensures StoresLeft(WorkerStep(env, st, m).0) == StoresLeft(st) - 1
  {
  }

  lemma WorkerStartSpends(env: Env, st: State, m: Memories)
    requires WellTyped(env) && Inv(env, st) && st.worker in {WStart, WResume}
    ensures StoresLeft(WorkerStep(env, st, m).0) == StoresLeft(st)
  {
  }

  lemma WorkerWaitSpends(env: Env, st: State, m: Memories)
    requires WellTyped(env) && Inv(env, st) && st.worker !in {WStart, WResume, WRun, WStore}
    ensures StoresLeft(WorkerStep(env, st, m).0) == StoresLeft(st)
  {
  }

  lemma WorkerRunSpends(env: Env, st: State, m: Memories)
    requires WellTyped(env) && Inv(env, st) && st.worker == WRun
    ensures StoresLeft(WorkerStep(env, st, m).0) == StoresLeft(st) + if Invokes(env, st, m, Worker) then 2 else 0
  {
    StepRefines(env, st, m, Worker);
  }

  /** Step costs outside the store count: a store may turn the other side's
      sleep into a retry and owes one wake, both paid for by the 16. */
  lemma HostRanks(env: Env, st: State, m: Memories)
    requires WellTyped(env) && Inv(env, st) && Enabled(st, Host)
    ensures var n := HostStep(env, st, m).0;
      HostRank(n) + WorkerRank(n) <= HostRank(st) + WorkerRank(st) + if Stores(st, Host) then 15 else -1
  {
  }

  lemma WorkerRanks(env: Env, st: State, m: Memories)
    requires WellTyped(env) && Inv(env, st) && Enabled(st, Worker)
    ensures var n := WorkerStep(env, st, m).0;
      HostRank(n) + WorkerRank(n) <= HostRank(st) + WorkerRank(st) + if Stores(st, Worker) then 15 else -1
  {
  }

  lemma SignalSpends(env: Env, st: State, m: Memories, who: Tid)
    requires WellTyped(env) && Inv(env, st) && Enabled(st, who) && IsSignal(who)
    ensures Rank(Step(env, st, m, who).0) + 1 <= Rank(st) + 5
  {
  }

  /** What a step may add to the measure: a callback, the handoffs it takes; a wait
      that ends without a wake, the retry. */
  function Charge(env: Env, st: State, m: Memories, who: Tid): nat
    requires Inv(env, st)
  {
    if IsSignal(who) then 5 else if Invokes(env, st, m, who) then 32 else 0
  }

  /** Every enabled step uses up part of the measure, retries after a failed
      futex_wait and late wakes included; only callbacks and signals add to it. */
  lemma StepSpends(env: Env, st: State, m: Memories, who: Tid)
    requires WellTyped(env) && Inv(env, st) && Enabled(st, who)
    ensures Rank(Step(env, st, m, who).0) + 1 <= Rank(st) + Charge(env, st, m, who)
  {
    match who
    case Host =>
      HostRanks(env, st, m);
      if Stores(st, Host) { HostStoreSpends(env, st, m); } else { HostMoveSpends(env, st, m); }
    case Worker =>
      WorkerRanks(env, st, m);
      match st.worker {
        case WRun => WorkerRunSpends(env, st, m);
        case WStore => WorkerStoreSpends(env, st, m);
        case WStart | WResume => WorkerStartSpends(env, st, m);
        case _ => WorkerWaitSpends(env, st, m);
      }
    case _ => SignalSpends(env, st, m, who);
  }
}
