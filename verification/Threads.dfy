/** Any number of host threads sharing one sandbox: each gets its own channel
    and worker through the control channel, under channel_lock. */
module Threads {
  import opened Common

  type Tid = nat
  type Chan = nat

  /** Where a host thread is in get_or_create_channel, create_channel_locked and
      channel_destructor. */
  datatype Pc =
    | Fresh        // no channel
    | Sending      // lock held, memfd mapped and set to IDLE
    | AwaitSend    // RECV_FD on the control channel
    | Spawning
    | AwaitSpawn   // SPAWN_WORKER on the control channel
    | AwaitReady   // spinning on sandbox_channel_addr
    | Listing      // about to append to channels
    | Failing      // about to unlock without a channel
    | Unlocking    // about to unlock with one
    | Storing      // lock released, before pthread_setspecific
    | Using
    | Leaving      // EXIT stored and the channel unmapped
    | Removing     // lock held again
    | Removed
    | Gone

  /** A thread and the channel it created and has not yet given up. */
  datatype Thread = Thread(pc: Pc, chan: Option<Chan>)

  predicate HoldsLock(pc: Pc) {
    pc.Sending? || pc.AwaitSend? || pc.Spawning? || pc.AwaitSpawn? || pc.AwaitReady? || pc.Listing? ||
    pc.Failing? || pc.Unlocking? || pc.Removing? || pc.Removed?
  }

  predicate HasChan(pc: Pc) {
    !(pc.Fresh? || pc.Failing? || pc.Removed? || pc.Gone?)
  }

  /** The thread's channel belongs in the channels list. */
  predicate Listed(pc: Pc) {
    pc.Unlocking? || pc.Storing? || pc.Using? || pc.Leaving? || pc.Removing?
  }

  /** The channel's worker has not been asked for. */
  predicate Unspawned(pc: Pc) {
    pc.Sending? || pc.AwaitSend? || pc.Spawning?
  }

  datatype Request = RecvFd(c: Chan) | SpawnWorker(c: Chan)

  datatype Control = Quiet | Asked(who: Tid, req: Request) | Answered(who: Tid, req: Request)

  datatype Worker = Absent | Starting | Serving | Stopped

  /** A channel: who created it, how many workers were ever started for it, the
      one running, and whether its state word is EXIT. */
  datatype Channel = Channel(creator: Tid, starts: nat, worker: Worker, exit: bool)

  datatype State = State(
    threads: seq<Thread>,
    chans: seq<Channel>,        // every channel ever created
    lock: Option<Tid>,
    ctrl: Control,
    channels: seq<Chan>,
    capacity: nat)

  /** Steps; ok is the answer of the system call or allocation involved. */
  datatype Step =
    | Lock(t: Tid, ok: bool) | PublishSend(t: Tid, ok: bool) | CollectSend(t: Tid, ok: bool)
    | PublishSpawn(t: Tid) | CollectSpawn(t: Tid) | SeeReady(t: Tid) | List(t: Tid, ok: bool)
    | Fail(t: Tid) | Unlock(t: Tid) | Store(t: Tid)
    | Leave(t: Tid) | LockAgain(t: Tid) | Remove(t: Tid) | UnlockAgain(t: Tid)
    | Serve(ok: bool) | Start(c: Chan, ok: bool) | Stop(c: Chan)

  /** The first position that holds c, or the length. */
  function IndexOf(s: seq<Chan>, c: Chan): (i: nat)
    ensures i <= |s| && c !in s[..i] && (i < |s| ==> s[i] == c)
  {
    if s == [] then 0 else if s[0] == c then 0 else 1 + IndexOf(s[1..], c)
  }

  function Without(s: seq<Chan>, c: Chan): seq<Chan> {
    if IndexOf(s, c) < |s| then SwapRemove(s, IndexOf(s, c)) else s
  }

  /** Appending, doubling the capacity from 4 when the list is full. */
  function GrownCapacity(n: nat, capacity: nat): nat {
    if n < capacity then capacity else if capacity == 0 then 4 else capacity * 2
  }

  /** Thread t is at pc. */
  predicate Is(s: State, t: Tid, pc: Pc) {
    t < |s.threads| && s.threads[t].pc == pc &&
    (HasChan(pc) ==> s.threads[t].chan.Some? && s.threads[t].chan.value < |s.chans|)
  }

  predicate Can(s: State, step: Step) {
    match step
    case Lock(t, _) => Is(s, t, Fresh) && s.lock.None?
    case PublishSend(t, _) => Is(s, t, Sending)
    case CollectSend(t, _) => Is(s, t, AwaitSend) && s.ctrl.Answered?
    case PublishSpawn(t) => Is(s, t, Spawning)
    case CollectSpawn(t) => Is(s, t, AwaitSpawn) && s.ctrl.Answered?
    case SeeReady(t) => Is(s, t, AwaitReady) && s.chans[s.threads[t].chan.value].worker.Serving?
    case List(t, _) => Is(s, t, Listing)
    case Fail(t) => Is(s, t, Failing)
    case Unlock(t) => Is(s, t, Unlocking)
    case Store(t) => Is(s, t, Storing)
    case Leave(t) => Is(s, t, Using)
    case LockAgain(t) => Is(s, t, Leaving) && s.lock.None?
    case Remove(t) => Is(s, t, Removing)
    case UnlockAgain(t) => Is(s, t, Removed)
    case Serve(_) => s.ctrl.Asked? && s.ctrl.req.c < |s.chans|
    case Start(c, _) => c < |s.chans| && s.chans[c].worker.Starting?
    case Stop(c) => c < |s.chans| && s.chans[c].worker.Serving? && s.chans[c].exit
  }

  /** Thread t moves on, keeping its channel. */
  function To(s: State, t: Tid, pc: Pc): State
    requires t < |s.threads|
  {
    s.(threads := s.threads[t := s.threads[t].(pc := pc)])
  }

  /** Thread t moves on without a channel. */
  function Drop(s: State, t: Tid, pc: Pc): State
    requires t < |s.threads|
  {
    s.(threads := s.threads[t := Thread(pc, None)])
  }

  function SetExit(s: State, c: Chan): State
    requires c < |s.chans|
  {
    s.(chans := s.chans[c := s.chans[c].(exit := true)])
  }

  function SetWorker(s: State, c: Chan, worker: Worker): State
    requires c < |s.chans|
  {
    s.(chans := s.chans[c := s.chans[c].(worker := worker)])
  }

  function ChanOf(s: State, t: Tid): Chan
    requires t < |s.threads| && s.threads[t].chan.Some?
  {
    s.threads[t].chan.value
  }

  /** One step, or nothing where the step cannot happen. */
  function Do(s: State, step: Step): State {
    if !Can(s, step) then s else
    match step
    case Lock(t, ok) =>
      if ok then
        s.(threads := s.threads[t := Thread(Sending, Some(|s.chans|))], lock := Some(t),
           chans := s.chans + [Channel(t, 0, Absent, false)])
      else Drop(s, t, Failing).(lock := Some(t))
    case PublishSend(t, ok) =>
      if ok then To(s, t, AwaitSend).(ctrl := Asked(t, RecvFd(ChanOf(s, t))))
      else Drop(s, t, Failing)
    case CollectSend(t, ok) => (if ok then To(s, t, Spawning) else Drop(s, t, Failing)).(ctrl := Quiet)
    case PublishSpawn(t) => To(s, t, AwaitSpawn).(ctrl := Asked(t, SpawnWorker(ChanOf(s, t))))
    case CollectSpawn(t) => To(s, t, AwaitReady).(ctrl := Quiet)
    case SeeReady(t) => To(s, t, Listing)
    case List(t, ok) =>
      if ok then
        To(s, t, Unlocking).(channels := s.channels + [ChanOf(s, t)],
                             capacity := GrownCapacity(|s.channels|, s.capacity))
      else SetExit(Drop(s, t, Failing), ChanOf(s, t))
    case Fail(t) => To(s, t, Fresh).(lock := None)
    case Unlock(t) => To(s, t, Storing).(lock := None)
    case Store(t) => To(s, t, Using)
    case Leave(t) => SetExit(To(s, t, Leaving), ChanOf(s, t))
    case LockAgain(t) => To(s, t, Removing).(lock := Some(t))
    case Remove(t) => Drop(s, t, Removed).(channels := Without(s.channels, ChanOf(s, t)))
    case UnlockAgain(t) => To(s, t, Gone).(lock := None)
    case Serve(ok) =>
      var c := s.ctrl.req.c;
      var next := s.(ctrl := Answered(s.ctrl.who, s.ctrl.req));
      if s.ctrl.req.SpawnWorker? && ok then
        next.(chans := s.chans[c := s.chans[c].(worker := Starting, starts := s.chans[c].starts + 1)])
      else next
    case Start(c, ok) => SetWorker(s, c, if ok then Serving else Stopped)
    case Stop(c) => SetWorker(s, c, Stopped)
  }

  // ---------------------------------------------------------------------

  /** Only the lock holder is inside the locked region, and a channel belongs to
      the thread that created it. */
  predicate Exclusive(s: State) {
    (s.lock.Some? ==> s.lock.value < |s.threads|) &&
    (forall t | 0 <= t < |s.threads| :: HoldsLock(s.threads[t].pc) <==> s.lock == Some(t)) &&
    (forall t | 0 <= t < |s.threads| :: HasChan(s.threads[t].pc) <==> s.threads[t].chan.Some?) &&
    (forall t | 0 <= t < |s.threads| && s.threads[t].chan.Some? ::
      ChanOf(s, t) < |s.chans| && s.chans[ChanOf(s, t)].creator == t)
  }

  predicate Awaits(s: State, t: Tid, req: Request) {
    s.lock == Some(t) && t < |s.threads| && s.threads[t].chan == Some(req.c) &&
    s.threads[t].pc == if req.RecvFd? then AwaitSend else AwaitSpawn
  }

  /** The control channel carries at most one request, the lock holder's own,
      and carries it exactly while the holder waits for an answer. */
  predicate OneRequest(s: State) {
    (s.ctrl != Quiet ==> Awaits(s, s.ctrl.who, s.ctrl.req)) &&
    (s.ctrl.Asked? && s.ctrl.req.SpawnWorker? ==> s.ctrl.req.c < |s.chans| && s.chans[s.ctrl.req.c].starts == 0) &&
    (forall t | 0 <= t < |s.threads| && (s.threads[t].pc.AwaitSend? || s.threads[t].pc.AwaitSpawn?) :: s.ctrl != Quiet)
  }

  predicate Distinct(cs: seq<Chan>) {
    forall i, j | 0 <= i < j < |cs| :: cs[i] != cs[j]
  }

  /** The thread that created c has it registered. */
  predicate Registered(s: State, c: Chan) {
    c < |s.chans| && s.chans[c].creator < |s.threads| &&
    Listed(s.threads[s.chans[c].creator].pc) && s.threads[s.chans[c].creator].chan == Some(c)
  }

  /** channels is duplicate-free and holds exactly the channels of the threads
      that have one registered. */
  predicate ListExact(s: State) {
    Distinct(s.channels) && |s.channels| <= s.capacity &&
    (forall c | c in s.channels :: Registered(s, c)) &&
    (forall t | 0 <= t < |s.threads| && Listed(s.threads[t].pc) ::
      s.threads[t].chan.Some? && ChanOf(s, t) in s.channels)
  }

  /** What a thread at pc knows of its channel's worker. */
  predicate WorkerFits(pc: Pc, ch: Channel) {
    (Unspawned(pc) ==> ch.starts == 0) &&
    (ch.exit ==> pc.Leaving? || pc.Removing?) &&
    (pc.Listing? || Listed(pc) ==>
      !ch.worker.Absent? && !ch.worker.Starting? && (ch.worker.Stopped? ==> ch.exit))
  }

  /** At most one worker per channel, ready before the channel is used, and
      running until the channel is told to exit. */
  predicate OneWorker(s: State) {
    (forall c | 0 <= c < |s.chans| ::
      s.chans[c].starts <= 1 && (s.chans[c].starts == 0 <==> s.chans[c].worker.Absent?)) &&
    (forall t | 0 <= t < |s.threads| && s.threads[t].chan.Some? ::
      ChanOf(s, t) < |s.chans| && WorkerFits(s.threads[t].pc, s.chans[ChanOf(s, t)]))
  }

  predicate Inv(s: State) {
    Exclusive(s) && OneRequest(s) && ListExact(s) && OneWorker(s)
  }

  lemma WithoutMeaning(s: seq<Chan>, c: Chan)
    requires Distinct(s)
    ensures Distinct(Without(s, c)) && |Without(s, c)| <= |s|
    ensures forall d :: d in Without(s, c) <==> d in s && d != c
  {
    var r, i := Without(s, c), IndexOf(s, c);
    assert i == |s| ==> s[..i] == s;
    forall d | d in s && d != c ensures d in r {
      var k :| 0 <= k < |s| && s[k] == d;
      if i < |s| {
        assert r[if k == |s| - 1 then i else k] == d;
      }
    }
  }

  lemma LockKeeps(s: State, t: Tid, ok: bool)
    requires Inv(s) && Can(s, Lock(t, ok))
    ensures Inv(Do(s, Lock(t, ok)))
  {
    LockKeepsList(s, t, ok);
    LockKeepsWorkers(s, t, ok);
  }

  lemma LockKeepsList(s: State, t: Tid, ok: bool)
    requires Inv(s) && Can(s, Lock(t, ok))
    ensures var n := Do(s, Lock(t, ok)); Exclusive(n) && OneRequest(n) && ListExact(n)
  {
  }

  lemma LockKeepsWorkers(s: State, t: Tid, ok: bool)
    requires Inv(s) && Can(s, Lock(t, ok))
    ensures OneWorker(Do(s, Lock(t, ok)))
  {
  }

  lemma PublishSendKeeps(s: State, t: Tid, ok: bool)
    requires Inv(s) && Can(s, PublishSend(t, ok))
    ensures Inv(Do(s, PublishSend(t, ok)))
  {
    if ok { AskedKeeps(s, t); } else { UnsentKeeps(s, t); }
  }

  lemma AskedKeeps(s: State, t: Tid)
    requires Inv(s) && Can(s, PublishSend(t, true))
    ensures Inv(Do(s, PublishSend(t, true)))
  {
  }

  lemma UnsentKeeps(s: State, t: Tid)
    requires Inv(s) && Can(s, PublishSend(t, false))
    ensures Inv(Do(s, PublishSend(t, false)))
  {
  }

  lemma CollectSendKeeps(s: State, t: Tid, ok: bool)
    requires Inv(s) && Can(s, CollectSend(t, ok))
    ensures Inv(Do(s, CollectSend(t, ok)))
  {
    CollectSendKeepsList(s, t, ok);
    CollectSendKeepsWorkers(s, t, ok);
  }

  lemma CollectSendKeepsList(s: State, t: Tid, ok: bool)
    requires Inv(s) && Can(s, CollectSend(t, ok))
    ensures var n := Do(s, CollectSend(t, ok)); Exclusive(n) && OneRequest(n) && ListExact(n)
  {
  }

  lemma CollectSendKeepsWorkers(s: State, t: Tid, ok: bool)
    requires Inv(s) && Can(s, CollectSend(t, ok))
    ensures OneWorker(Do(s, CollectSend(t, ok)))
  {
  }

  lemma PublishSpawnKeeps(s: State, t: Tid)
    requires Inv(s) && Can(s, PublishSpawn(t))
    ensures Inv(Do(s, PublishSpawn(t)))
  {
  }

  lemma CollectSpawnKeeps(s: State, t: Tid)
    requires Inv(s) && Can(s, CollectSpawn(t))
    ensures Inv(Do(s, CollectSpawn(t)))
  {
  }

  lemma SeeReadyKeeps(s: State, t: Tid)
    requires Inv(s) && Can(s, SeeReady(t))
    ensures Inv(Do(s, SeeReady(t)))
  {
    SeeReadyKeepsList(s, t);
    SeeReadyKeepsWorkers(s, t);
  }

  lemma SeeReadyKeepsList(s: State, t: Tid)
    requires Inv(s) && Can(s, SeeReady(t))
    ensures var n := Do(s, SeeReady(t)); Exclusive(n) && OneRequest(n) && ListExact(n)
  {
  }

  lemma SeeReadyKeepsWorkers(s: State, t: Tid)
    requires Inv(s) && Can(s, SeeReady(t))
    ensures OneWorker(Do(s, SeeReady(t)))
  {
  }

  lemma ListKeeps(s: State, t: Tid)
    requires Inv(s) && Can(s, List(t, true))
    ensures Inv(Do(s, List(t, true)))
  {
    ListKeepsList(s, t);
    ListKeepsWorkers(s, t);
  }

  lemma ListKeepsList(s: State, t: Tid)
    requires Inv(s) && Can(s, List(t, true))
    ensures var n := Do(s, List(t, true)); Exclusive(n) && OneRequest(n) && ListExact(n)
  {
    assert ChanOf(s, t) !in s.channels;
  }

  lemma ListKeepsWorkers(s: State, t: Tid)
    requires Inv(s) && Can(s, List(t, true))
    ensures OneWorker(Do(s, List(t, true)))
  {
  }

  lemma ListFailedKeeps(s: State, t: Tid)
    requires Inv(s) && Can(s, List(t, false))
    ensures Inv(Do(s, List(t, false)))
  {
  }

  lemma FailKeeps(s: State, t: Tid)
    requires Inv(s) && Can(s, Fail(t))
    ensures Inv(Do(s, Fail(t)))
  {
  }

  lemma UnlockKeeps(s: State, t: Tid)
    requires Inv(s) && Can(s, Unlock(t))
    ensures Inv(Do(s, Unlock(t)))
  {
  }

  lemma StoreKeeps(s: State, t: Tid)
    requires Inv(s) && Can(s, Store(t))
    ensures Inv(Do(s, Store(t)))
  {
    StoreKeepsList(s, t);
    StoreKeepsWorkers(s, t);
  }

  lemma StoreKeepsList(s: State, t: Tid)
    requires Inv(s) && Can(s, Store(t))
    ensures var n := Do(s, Store(t)); Exclusive(n) && OneRequest(n) && ListExact(n)
  {
  }

  lemma StoreKeepsWorkers(s: State, t: Tid)
    requires Inv(s) && Can(s, Store(t))
    ensures OneWorker(Do(s, Store(t)))
  {
  }

  lemma LeaveKeeps(s: State, t: Tid)
    requires Inv(s) && Can(s, Leave(t))
    ensures Inv(Do(s, Leave(t)))
  {
    LeaveKeepsList(s, t);
    LeaveKeepsWorkers(s, t);
  }

  lemma LeaveKeepsList(s: State, t: Tid)
    requires Inv(s) && Can(s, Leave(t))
    ensures var n := Do(s, Leave(t)); Exclusive(n) && OneRequest(n) && ListExact(n)
  {
  }

  lemma LeaveKeepsWorkers(s: State, t: Tid)
    requires Inv(s) && Can(s, Leave(t))
    ensures OneWorker(Do(s, Leave(t)))
  {
  }

  lemma LockAgainKeeps(s: State, t: Tid)
    requires Inv(s) && Can(s, LockAgain(t))
    ensures Inv(Do(s, LockAgain(t)))
  {
  }

  lemma RemoveKeeps(s: State, t: Tid)
    requires Inv(s) && Can(s, Remove(t))
    ensures Inv(Do(s, Remove(t)))
  {
    WithoutMeaning(s.channels, ChanOf(s, t));
  }

  lemma UnlockAgainKeeps(s: State, t: Tid)
    requires Inv(s) && Can(s, UnlockAgain(t))
    ensures Inv(Do(s, UnlockAgain(t)))
  {
  }

  lemma ServeKeeps(s: State, ok: bool)
    requires Inv(s) && Can(s, Serve(ok))
    ensures Inv(Do(s, Serve(ok)))
  {
  }

  lemma StartKeeps(s: State, c: Chan, ok: bool)
    requires Inv(s) && Can(s, Start(c, ok))
    ensures Inv(Do(s, Start(c, ok)))
  {
  }

  lemma StopKeeps(s: State, c: Chan)
    requires Inv(s) && Can(s, Stop(c))
    ensures Inv(Do(s, Stop(c)))
  {
  }

  lemma StepKeeps(s: State, step: Step)
    requires Inv(s)
    ensures Inv(Do(s, step))
  {
    if Can(s, step) {
      match step
      case Lock(t, ok) => LockKeeps(s, t, ok);
      case PublishSend(t, ok) => PublishSendKeeps(s, t, ok);
      case CollectSend(t, ok) => CollectSendKeeps(s, t, ok);
      case PublishSpawn(t) => PublishSpawnKeeps(s, t);
      case CollectSpawn(t) => CollectSpawnKeeps(s, t);
      case SeeReady(t) => SeeReadyKeeps(s, t);
      case List(t, ok) => if ok { ListKeeps(s, t); } else { ListFailedKeeps(s, t); }
      case Fail(t) => FailKeeps(s, t);
      case Unlock(t) => UnlockKeeps(s, t);
      case Store(t) => StoreKeeps(s, t);
      case Leave(t) => LeaveKeeps(s, t);
      case LockAgain(t) => LockAgainKeeps(s, t);
      case Remove(t) => RemoveKeeps(s, t);
      case UnlockAgain(t) => UnlockAgainKeeps(s, t);
      case Serve(ok) => ServeKeeps(s, ok);
      case Start(c, ok) => StartKeeps(s, c, ok);
      case Stop(c) => StopKeeps(s, c);
    }
  }

  // ---------------------------------------------------------------------
  // Giving channels up

  predicate Held(s: State, c: Chan)
    requires c < |s.chans|
  {
    s.chans[c].creator < |s.threads| && s.threads[s.chans[c].creator].chan == Some(c)
  }

  predicate Leaves(pc: Pc) {
    pc.Leaving? || pc.Removing?
  }

  /** A channel its thread has given up, or is giving up, has been told to exit or
      never had a worker. */
  predicate Dismissed(s: State) {
    (forall t | 0 <= t < |s.threads| && Leaves(s.threads[t].pc) && s.threads[t].chan.Some? ::
      ChanOf(s, t) < |s.chans| && s.chans[ChanOf(s, t)].exit) &&
    (forall c | 0 <= c < |s.chans| :: Held(s, c) || s.chans[c].exit || s.chans[c].starts == 0)
  }

  lemma LockDismisses(s: State, t: Tid, ok: bool)
    requires Inv(s) && Dismissed(s) && Can(s, Lock(t, ok))
    ensures Dismissed(Do(s, Lock(t, ok)))
  {
  }

  lemma PublishDismisses(s: State, t: Tid, ok: bool)
    requires Inv(s) && Dismissed(s) && Can(s, PublishSend(t, ok))
    ensures Dismissed(Do(s, PublishSend(t, ok)))
  {
  }

  lemma CollectDismisses(s: State, t: Tid, ok: bool)
    requires Inv(s) && Dismissed(s) && Can(s, CollectSend(t, ok))
    ensures Dismissed(Do(s, CollectSend(t, ok)))
  {
  }

  lemma SpawnDismisses(s: State, step: Step)
    requires Inv(s) && Dismissed(s) && Can(s, step) && (step.PublishSpawn? || step.CollectSpawn? || step.SeeReady?)
    ensures Dismissed(Do(s, step))
  {
  }

  lemma ListDismisses(s: State, t: Tid, ok: bool)
    requires Inv(s) && Dismissed(s) && Can(s, List(t, ok))
    ensures Dismissed(Do(s, List(t, ok)))
  {
  }

  lemma SettleDismisses(s: State, step: Step)
    requires Inv(s) && Dismissed(s) && Can(s, step) && (step.Fail? || step.Unlock? || step.Store?)
    ensures Dismissed(Do(s, step))
  {
  }

  lemma LeaveDismisses(s: State, t: Tid)
    requires Inv(s) && Dismissed(s) && Can(s, Leave(t))
    ensures Dismissed(Do(s, Leave(t)))
  {
  }

  lemma ReleaseDismisses(s: State, step: Step)
    requires Inv(s) && Dismissed(s) && Can(s, step)
    requires step.LockAgain? || step.Remove? || step.UnlockAgain?
    ensures Dismissed(Do(s, step))
  {
  }

  lemma SandboxDismisses(s: State, step: Step)
    requires Inv(s) && Dismissed(s) && Can(s, step)
    requires step.Serve? || step.Start? || step.Stop?
    ensures Dismissed(Do(s, step))
  {
  }

  lemma StepDismisses(s: State, step: Step)
    requires Inv(s) && Dismissed(s)
    ensures Dismissed(Do(s, step))
  {
    if Can(s, step) {
      if step.Serve? || step.Start? || step.Stop? {
        SandboxDismisses(s, step);
      } else if step.Leave? {
        LeaveDismisses(s, step.t);
      } else if step.LockAgain? || step.Remove? || step.UnlockAgain? {
        ReleaseDismisses(s, step);
      } else if step.Fail? || step.Unlock? || step.Store? {
        SettleDismisses(s, step);
      } else if step.List? {
        ListDismisses(s, step.t, step.ok);
      } else if step.Lock? {
        LockDismisses(s, step.t, step.ok);
      } else if step.PublishSend? {
        PublishDismisses(s, step.t, step.ok);
      } else if step.CollectSend? {
        CollectDismisses(s, step.t, step.ok);
      } else {
        SpawnDismisses(s, step);
      }
    }
  }

  // ---------------------------------------------------------------------
  // Whole runs

  /** n host threads, none with a channel. */
  function Init(n: nat): State {
    State(seq(n, _ => Thread(Fresh, None)), [], None, Quiet, [], 0)
  }

  function Run(s: State, steps: seq<Step>): State {
    if steps == [] then s else Do(Run(s, steps[..|steps| - 1]), steps[|steps| - 1])
  }

  lemma {:induction false} RunKeeps(n: nat, steps: seq<Step>)
    ensures Inv(Run(Init(n), steps))
  {
    if steps != [] {
      RunKeeps(n, steps[..|steps| - 1]);
      StepKeeps(Run(Init(n), steps[..|steps| - 1]), steps[|steps| - 1]);
    }
  }

  lemma {:induction false} RunDismisses(n: nat, steps: seq<Step>)
    ensures Dismissed(Run(Init(n), steps))
  {
    if steps != [] {
      RunKeeps(n, steps[..|steps| - 1]);
      RunDismisses(n, steps[..|steps| - 1]);
      StepDismisses(Run(Init(n), steps[..|steps| - 1]), steps[|steps| - 1]);
    }
  }

  /** No worker is left behind: whatever way its thread gave a channel up, a
      worker still serving it can stop. */
  lemma WorkersCanStop(n: nat, steps: seq<Step>, c: Chan)
    requires var s := Run(Init(n), steps); c < |s.chans| && !Held(s, c) && s.chans[c].worker.Serving?
    ensures Can(Run(Init(n), steps), Stop(c))
  {
    RunKeeps(n, steps);
    RunDismisses(n, steps);
  }

  /** Two threads never share a channel, whatever they are doing. */
  lemma ChannelsArePrivate(n: nat, steps: seq<Step>, t: Tid, u: Tid)
    requires var s := Run(Init(n), steps);
      t < |s.threads| && u < |s.threads| && t != u && s.threads[t].chan.Some? && s.threads[u].chan.Some?
    ensures var s := Run(Init(n), steps); ChanOf(s, t) != ChanOf(s, u)
  {
    RunKeeps(n, steps);
  }

  /** A thread that makes calls does so on a channel of its own, which is in the
      list and has one worker ever started, ready and not told to exit. */
  lemma UsedChannelsAreServed(n: nat, steps: seq<Step>, t: Tid)
    requires var s := Run(Init(n), steps); t < |s.threads| && s.threads[t].pc == Using
    ensures var s := Run(Init(n), steps);
      s.threads[t].chan.Some? && ChanOf(s, t) in s.channels && ChanOf(s, t) < |s.chans| &&
      s.chans[ChanOf(s, t)] == Channel(t, 1, Serving, false)
  {
    RunKeeps(n, steps);
  }

  /** The list holds each live registered channel once and nothing else. */
  lemma ListIsLiveChannels(n: nat, steps: seq<Step>, c: Chan)
    ensures var s := Run(Init(n), steps);
      Distinct(s.channels) && |s.channels| <= s.capacity &&
      (c in s.channels <==> Registered(s, c)) &&
      (forall t: Tid | t < |s.threads| && Listed(s.threads[t].pc) && s.threads[t].chan == Some(c) ::
        c < |s.chans| && s.chans[c].creator == t && c in s.channels)
  {
    RunKeeps(n, steps);
  }

  /** Two threads never wait on the control channel together, and whatever is on
      it is the request of the one that waits. */
  lemma ControlNeverShared(n: nat, steps: seq<Step>, t: Tid, u: Tid)
    requires var s := Run(Init(n), steps);
      t < |s.threads| && u < |s.threads| && Waits(s.threads[t].pc) && Waits(s.threads[u].pc)
    ensures var s := Run(Init(n), steps); t == u && s.ctrl != Quiet && s.ctrl.who == t
  {
    RunKeeps(n, steps);
  }

  /** A thread goes on only with the answer to what it asked. */
  lemma AnswersAreOwn(n: nat, steps: seq<Step>, t: Tid, ok: bool)
    ensures var s := Run(Init(n), steps);
      Can(s, CollectSend(t, ok)) ==> s.threads[t].chan.Some? && s.ctrl == Answered(t, RecvFd(ChanOf(s, t)))
    ensures var s := Run(Init(n), steps);
      Can(s, CollectSpawn(t)) ==> s.threads[t].chan.Some? && s.ctrl == Answered(t, SpawnWorker(ChanOf(s, t)))
  {
    RunKeeps(n, steps);
  }

  predicate Waits(pc: Pc) {
    pc.AwaitSend? || pc.AwaitSpawn?
  }

  /** The steps of the thread that holds the lock, and of the sandbox serving it. */
  predicate ForHolder(s: State, step: Step) {
    match step
    case Serve(_) => true
    case Start(c, _) => s.lock.Some? && s.lock.value < |s.threads| && s.threads[s.lock.value].chan == Some(c)
    case Stop(_) => false
    case _ => s.lock == Some(step.t)
  }

  /** The holder spins on a worker that never started or has given up. */
  predicate Orphaned(s: State) {
    s.lock.Some? && s.lock.value < |s.threads| && s.threads[s.lock.value].pc.AwaitReady? &&
    s.threads[s.lock.value].chan.Some? && ChanOf(s, s.lock.value) < |s.chans| &&
    var worker := s.chans[ChanOf(s, s.lock.value)].worker; worker.Absent? || worker.Stopped?
  }

  function HoldersStep(s: State): Step {
    if s.lock.None? || s.lock.value >= |s.threads| then Serve(true)
    else
      var t := s.lock.value;
      match s.threads[t].pc
      case Sending => PublishSend(t, true)
      case AwaitSend => if s.ctrl.Asked? then Serve(true) else CollectSend(t, true)
      case Spawning => PublishSpawn(t)
      case AwaitSpawn => if s.ctrl.Asked? then Serve(true) else CollectSpawn(t)
      case AwaitReady =>
        if s.threads[t].chan.Some? && ChanOf(s, t) < |s.chans| && s.chans[ChanOf(s, t)].worker.Starting?
        then Start(ChanOf(s, t), true) else SeeReady(t)
      case Listing => List(t, true)
      case Failing => Fail(t)
      case Unlocking => Unlock(t)
      case Removing => Remove(t)
      case _ => UnlockAgain(t)
  }

  /** While the lock is held, its holder or the sandbox serving it can take a
      step, except when the holder is orphaned. */
  lemma LockAlwaysMoves(n: nat, steps: seq<Step>)
    requires Run(Init(n), steps).lock.Some?
    ensures var s := Run(Init(n), steps);
      (exists step :: Can(s, step) && ForHolder(s, step)) <==> !Orphaned(s)
  {
    RunKeeps(n, steps);
    var s := Run(Init(n), steps);
    if Orphaned(s) {
      forall step | ForHolder(s, step) ensures !Can(s, step) {
        OrphanStuck(s, step);
      }
    } else {
      HolderMoves(s);
    }
  }

  lemma OrphanStuck(s: State, step: Step)
    requires Inv(s) && Orphaned(s) && ForHolder(s, step)
    ensures !Can(s, step)
  {
  }

  lemma HolderMoves(s: State)
    requires Inv(s) && s.lock.Some? && !Orphaned(s)
    ensures Can(s, HoldersStep(s)) && ForHolder(s, HoldersStep(s))
  {
  }

  // How long the lock is held

  /** Steps the holder and the sandbox can still take for it. */
  function HolderRank(s: State): nat {
    if s.lock.None? || s.lock.value >= |s.threads| then 0
    else
      var t := s.lock.value;
      var asked, starting := if s.ctrl.Asked? then 1 else 0, if HasStarting(s, t) then 1 else 0;
      match s.threads[t].pc
      case Sending => 12
      case AwaitSend => 10 + asked
      case Spawning => 9
      case AwaitSpawn => 6 + 2 * asked + starting
      case AwaitReady => 4 + starting
      case Listing | Removing => 2
      case _ => 1
  }

  predicate HasStarting(s: State, t: Tid) {
    t < |s.threads| && s.threads[t].chan.Some? && ChanOf(s, t) < |s.chans| && s.chans[ChanOf(s, t)].worker.Starting?
  }

  /** A step for the holder gets it closer to unlocking; no other step touches the
      lock or sets it back. */
  lemma AskingSpends(s: State, step: Step)
    requires Inv(s) && Can(s, step) && s.lock.Some? && ForHolder(s, step)
    requires step.PublishSend? || step.CollectSend? || step.PublishSpawn? || step.CollectSpawn? || step.Serve? || step.Start?
    ensures var n := Do(s, step); n.lock == s.lock && HolderRank(n) < HolderRank(s)
  {
  }

  lemma LeavingSpends(s: State, step: Step)
    requires Inv(s) && Can(s, step) && s.lock.Some? && ForHolder(s, step)
    requires !(step.PublishSend? || step.CollectSend? || step.PublishSpawn? || step.CollectSpawn? || step.Serve? || step.Start?)
    ensures var n := Do(s, step); n.lock == None || (n.lock == s.lock && HolderRank(n) < HolderRank(s))
  {
  }

  lemma OthersWait(s: State, step: Step)
    requires Inv(s) && Can(s, step) && s.lock.Some? && !ForHolder(s, step)
    ensures var n := Do(s, step); n.lock == s.lock && HolderRank(n) <= HolderRank(s)
  {
  }

  /** Steps of a run that the holder, or the sandbox for it, takes. */
  function HolderSteps(s: State, steps: seq<Step>): nat
    decreases |steps|
  {
    if steps == [] then 0
    else
      var front, last := steps[..|steps| - 1], steps[|steps| - 1];
      HolderSteps(s, front) + if Can(Run(s, front), last) && ForHolder(Run(s, front), last) then 1 else 0
  }

  /** The lock was held by the same thread all along. */
  predicate HeldThroughout(s: State, steps: seq<Step>)
    decreases |steps|
  {
    s.lock.Some? && Run(s, steps).lock == s.lock && (steps == [] || HeldThroughout(s, steps[..|steps| - 1]))
  }

  lemma {:induction false} HoldingSpends(s: State, steps: seq<Step>)
    requires Inv(s) && HeldThroughout(s, steps)
    ensures Inv(Run(s, steps)) && HolderSteps(s, steps) + HolderRank(Run(s, steps)) <= HolderRank(s)
    decreases |steps|
  {
    if steps != [] {
      var front, last := steps[..|steps| - 1], steps[|steps| - 1];
      HoldingSpends(s, front);
      var m := Run(s, front);
      StepKeeps(m, last);
      if Can(m, last) {
        if !ForHolder(m, last) {
          OthersWait(m, last);
        } else if last.PublishSend? || last.CollectSend? || last.PublishSpawn? || last.CollectSpawn? || last.Serve? || last.Start? {
          AskingSpends(m, last);
        } else {
          LeavingSpends(m, last);
        }
      }
    }
  }

  /** Twelve steps for the holder are the most any run takes without releasing
      the lock: with LockAlwaysMoves, it is released unless the holder is
      orphaned. */
  lemma LockReleased(n: nat, before: seq<Step>, steps: seq<Step>)
    requires HeldThroughout(Run(Init(n), before), steps)
    ensures HolderSteps(Run(Init(n), before), steps) <= 12
  {
    RunKeeps(n, before);
    HoldingSpends(Run(Init(n), before), steps);
  }

  // ---------------------------------------------------------------------
  // When the lock is kept for good

  /** The sandbox fails to start a worker: pthread_create, or the worker's own
      mapping or filter. */
  predicate Fails(s: State, step: Step) {
    Can(s, step) && ((step == Serve(false) && s.ctrl.req.SpawnWorker?) || (step.Start? && !step.ok))
  }

  /** The holder is orphaned, or will be once it collects the answer it has. */
  predicate Doomed(s: State) {
    s.lock.Some? && s.lock.value < |s.threads| && AwaitsWorker(s, s.lock.value) &&
    s.threads[s.lock.value].chan.Some? && ChanOf(s, s.lock.value) < |s.chans| &&
    var worker := s.chans[ChanOf(s, s.lock.value)].worker; worker.Absent? || worker.Stopped?
  }

  /** Thread t has the sandbox's answer to its request for a worker. */
  predicate AwaitsWorker(s: State, t: Tid)
    requires t < |s.threads|
  {
    s.threads[t].pc.AwaitReady? || (s.threads[t].pc.AwaitSpawn? && s.ctrl.Answered?)
  }

  /** A worker on its way is waited for. */
  predicate StartingAwaited(s: State) {
    forall c | 0 <= c < |s.chans| && s.chans[c].worker.Starting? :: Held(s, c) && AwaitsWorker(s, s.chans[c].creator)
  }

  /** The steps in which a worker's fate is settled. */
  predicate Settles(step: Step) {
    step.Serve? || step.Start? || step.Stop?
  }

  predicate Sends(step: Step) {
    step.Lock? || step.PublishSend? || step.CollectSend?
  }

  predicate Spawns(step: Step) {
    step.PublishSpawn? || step.CollectSpawn?
  }

  predicate Registers(step: Step) {
    step.SeeReady? || step.List? || step.Fail? || step.Unlock? || step.Store?
  }

  lemma SettlingDooms(s: State, step: Step)
    requires Inv(s) && StartingAwaited(s) && Can(s, step) && Settles(step)
    ensures Doomed(Do(s, step)) <==> Doomed(s) || Fails(s, step)
    ensures StartingAwaited(Do(s, step))
  {
  }

  lemma SendingDooms(s: State, step: Step)
    requires Inv(s) && StartingAwaited(s) && Can(s, step) && Sends(step)
    ensures Doomed(Do(s, step)) <==> Doomed(s)
    ensures StartingAwaited(Do(s, step))
  {
  }

  lemma SpawningDooms(s: State, step: Step)
    requires Inv(s) && StartingAwaited(s) && Can(s, step) && Spawns(step)
    ensures Doomed(Do(s, step)) <==> Doomed(s)
    ensures StartingAwaited(Do(s, step))
  {
  }

  lemma RegisteringDooms(s: State, step: Step)
    requires Inv(s) && StartingAwaited(s) && Can(s, step) && Registers(step)
    ensures Doomed(Do(s, step)) <==> Doomed(s)
    ensures StartingAwaited(Do(s, step))
  {
  }

  lemma LeavingDooms(s: State, step: Step)
    requires Inv(s) && StartingAwaited(s) && Can(s, step) && !Settles(step) && !Sends(step) && !Spawns(step) && !Registers(step)
    ensures Doomed(Do(s, step)) <==> Doomed(s)
    ensures StartingAwaited(Do(s, step))
  {
  }

  lemma DoomKeepsLock(s: State, step: Step)
    requires Inv(s) && Doomed(s)
    ensures Do(s, step).lock == s.lock
  {
  }

  /** A step dooms the holder exactly when it is a failure, and nothing saves it. */
  lemma StepDooms(s: State, step: Step)
    requires Inv(s) && StartingAwaited(s)
    ensures Doomed(Do(s, step)) <==> Doomed(s) || Fails(s, step)
    ensures StartingAwaited(Do(s, step))
  {
    if Can(s, step) {
      if Settles(step) {
        SettlingDooms(s, step);
      } else if Sends(step) {
        SendingDooms(s, step);
      } else if Spawns(step) {
        SpawningDooms(s, step);
      } else if Registers(step) {
        RegisteringDooms(s, step);
      } else {
        LeavingDooms(s, step);
      }
    }
  }

  predicate FailsAt(n: nat, steps: seq<Step>, i: nat)
    requires i < |steps|
  {
    Fails(Run(Init(n), steps[..i]), steps[i])
  }

  predicate FailedBefore(n: nat, steps: seq<Step>) {
    exists i :: 0 <= i < |steps| && FailsAt(n, steps, i)
  }

  lemma FailsAtFront(n: nat, steps: seq<Step>, i: nat)
    requires i < |steps| - 1
    ensures FailsAt(n, steps, i) <==> FailsAt(n, steps[..|steps| - 1], i)
  {
    assert steps[..|steps| - 1][..i] == steps[..i];
  }

  lemma RunLast(s: State, steps: seq<Step>, step: Step)
    ensures Run(s, steps + [step]) == Do(Run(s, steps), step)
  {
    assert (steps + [step])[..|steps|] == steps;
  }

  lemma FailsLast(n: nat, front: seq<Step>, last: Step)
    ensures FailsAt(n, front + [last], |front|) <==> Fails(Run(Init(n), front), last)
  {
    assert (front + [last])[..|front|] == front;
  }

  lemma FailedEarlier(n: nat, front: seq<Step>, last: Step)
    requires FailedBefore(n, front)
    ensures FailedBefore(n, front + [last])
  {
    var i :| 0 <= i < |front| && FailsAt(n, front, i);
    assert (front + [last])[..|front|] == front;
    FailsAtFront(n, front + [last], i);
  }

  lemma FailedSoFar(n: nat, front: seq<Step>, last: Step)
    requires FailedBefore(n, front + [last]) && !FailsAt(n, front + [last], |front|)
    ensures FailedBefore(n, front)
  {
    var i :| 0 <= i < |front + [last]| && FailsAt(n, front + [last], i);
    assert (front + [last])[..|front|] == front;
    FailsAtFront(n, front + [last], i);
  }

  lemma FailedBeforeNext(n: nat, front: seq<Step>, last: Step)
    ensures FailedBefore(n, front + [last]) <==> FailedBefore(n, front) || Fails(Run(Init(n), front), last)
  {
    FailsLast(n, front, last);
    if FailedBefore(n, front) {
      FailedEarlier(n, front, last);
    } else if FailedBefore(n, front + [last]) && !FailsAt(n, front + [last], |front|) {
      FailedSoFar(n, front, last);
    }
  }

  lemma DoomedNext(n: nat, front: seq<Step>, last: Step)
    requires Doomed(Run(Init(n), front)) <==> FailedBefore(n, front)
    requires StartingAwaited(Run(Init(n), front))
    ensures Doomed(Run(Init(n), front + [last])) <==> FailedBefore(n, front + [last])
    ensures StartingAwaited(Run(Init(n), front + [last]))
  {
    RunKeeps(n, front);
    RunLast(Init(n), front, last);
    StepDooms(Run(Init(n), front), last);
    FailedBeforeNext(n, front, last);
  }

  /** The holder is doomed exactly when the sandbox has failed to start a worker. */
  lemma {:induction false} DoomedExact(n: nat, steps: seq<Step>)
    ensures Doomed(Run(Init(n), steps)) <==> FailedBefore(n, steps)
    ensures StartingAwaited(Run(Init(n), steps))
    decreases |steps|
  {
    if steps != [] {
      var front, last := steps[..|steps| - 1], steps[|steps| - 1];
      DoomedExact(n, front);
      DoomedNext(n, front, last);
      assert front + [last] == steps;
    }
  }

  lemma {:induction false} DoomedForGood(s: State, more: seq<Step>)
    requires Inv(s) && StartingAwaited(s) && Doomed(s)
    ensures var r := Run(s, more); Inv(r) && StartingAwaited(r) && Doomed(r) && r.lock == s.lock
    decreases |more|
  {
    if more != [] {
      DoomedForGood(s, more[..|more| - 1]);
      var m := Run(s, more[..|more| - 1]);
      StepKeeps(m, more[|more| - 1]);
      StepDooms(m, more[|more| - 1]);
      DoomKeepsLock(m, more[|more| - 1]);
    }
  }

  lemma {:induction false} RunAfter(s: State, step: Step, more: seq<Step>)
    ensures Run(s, [step] + more) == Run(Do(s, step), more)
    decreases |more|
  {
    var all := [step] + more;
    if more == [] {
      assert all == [step] && [step][..0] == [] && Run(s, []) == s;
    } else {
      assert all[..|all| - 1] == [step] + more[..|more| - 1];
      RunAfter(s, step, more[..|more| - 1]);
    }
  }

  /** A holder that is not doomed can be run to its unlock. */
  lemma {:induction false} Releasable(s: State) returns (more: seq<Step>)
    requires Inv(s) && StartingAwaited(s) && s.lock.Some? && !Doomed(s)
    ensures Run(s, more).lock == None
    decreases HolderRank(s)
  {
    var step := HoldersStep(s);
    HolderMoves(s);
    StepKeeps(s, step);
    StepDooms(s, step);
    assert !Fails(s, step);
    if step.PublishSend? || step.CollectSend? || step.PublishSpawn? || step.CollectSpawn? || step.Serve? || step.Start? {
      AskingSpends(s, step);
    } else {
      LeavingSpends(s, step);
    }
    var n, rest := Do(s, step), [];
    if n.lock.Some? {
      rest := Releasable(n);
    }
    RunAfter(s, step, rest);
    more := [step] + rest;
  }

  /** No continuation of any length releases the lock. */
  ghost predicate KeptForGood(s: State) {
    s.lock.Some? && forall more :: Run(s, more).lock == s.lock
  }

  /** A held lock is kept for good exactly when the sandbox has failed to start a
      worker. */
  lemma LockKeptExact(n: nat, steps: seq<Step>)
    ensures KeptForGood(Run(Init(n), steps)) <==> FailedBefore(n, steps)
  {
    var s := Run(Init(n), steps);
    RunKeeps(n, steps);
    DoomedExact(n, steps);
    if Doomed(s) {
      forall more ensures Run(s, more).lock == s.lock {
        DoomedForGood(s, more);
      }
    } else if s.lock.Some? {
      var more := Releasable(s);
    }
  }

  // ---------------------------------------------------------------------
  // A thread gets its channel, and gives it up

  /** A system call or allocation that worked. */
  predicate Ok(step: Step) {
    step.Lock? || step.PublishSend? || step.CollectSend? || step.List? || step.Serve? || step.Start? ==> step.ok
  }

  /** A thread ends up without a channel only by a step that something failed in. */
  lemma FailingExact(s: State, step: Step, t: Tid)
    requires t < |s.threads| && !s.threads[t].pc.Failing?
    ensures t < |Do(s, step).threads|
    ensures Do(s, step).threads[t].pc.Failing? <==>
      Can(s, step) && !Ok(step) && (step.Lock? || step.PublishSend? || step.CollectSend? || step.List?) && step.t == t
  {
  }

  predicate Creating(pc: Pc) {
    pc.Sending? || pc.AwaitSend? || pc.Spawning? || pc.AwaitSpawn? || pc.AwaitReady? || pc.Listing? || pc.Unlocking?
  }

  predicate AllOk(steps: seq<Step>) {
    forall i | 0 <= i < |steps| :: Ok(steps[i])
  }

  /** Thread t is done creating channel c and can use it. */
  predicate Granted(s: State, t: Tid, c: Chan) {
    t < |s.threads| && s.threads[t] == Thread(Using, Some(c)) && s.lock == None &&
    c in s.channels && c < |s.chans| && s.chans[c] == Channel(t, 1, Serving, false)
  }

  lemma CreatingMoves(s: State, t: Tid)
    requires Inv(s) && s.lock == Some(t) && t < |s.threads| && Creating(s.threads[t].pc) && !Orphaned(s)
    requires !s.threads[t].pc.Unlocking?
    ensures
      var n := Do(s, HoldersStep(s));
      && Ok(HoldersStep(s)) && n.lock == s.lock && |n.threads| == |s.threads|
      && Creating(n.threads[t].pc) && n.threads[t].chan == s.threads[t].chan && HolderRank(n) < HolderRank(s)
  {
    HolderMoves(s);
    var step := HoldersStep(s);
    if step.List? { LeavingSpends(s, step); } else if !step.SeeReady? { AskingSpends(s, step); }
  }

  lemma RunFew(s: State, a: Step, b: Step)
    ensures Run(s, [a]) == Do(s, a) && Run(s, [a] + [b]) == Do(Do(s, a), b)
  {
    assert Run(s, []) == s && [] + [a] == [a];
    RunLast(s, [], a);
    RunLast(s, [a], b);
  }

  lemma Releases(s: State, t: Tid)
    requires Inv(s) && s.lock == Some(t) && t < |s.threads| && s.threads[t].pc.Unlocking? && s.threads[t].chan.Some?
    ensures Inv(Do(Do(s, Unlock(t)), Store(t))) && Granted(Do(Do(s, Unlock(t)), Store(t)), t, ChanOf(s, t))
  {
    StepKeeps(s, Unlock(t));
    StepKeeps(Do(s, Unlock(t)), Store(t));
  }

  /** Thread t is creating its channel and nothing has failed. */
  predicate Underway(s: State, t: Tid) {
    Inv(s) && StartingAwaited(s) && s.lock == Some(t) && t < |s.threads| && Creating(s.threads[t].pc) &&
    s.threads[t].chan.Some? && !Doomed(s)
  }

  lemma UnderwayMoves(s: State, t: Tid)
    requires Underway(s, t) && !s.threads[t].pc.Unlocking?
    ensures var n := Do(s, HoldersStep(s));
      Underway(n, t) && ChanOf(n, t) == ChanOf(s, t) && HolderRank(n) < HolderRank(s) && Ok(HoldersStep(s))
  {
    CreatingMoves(s, t);
    StepKeeps(s, HoldersStep(s));
    StepDooms(s, HoldersStep(s));
    assert !Fails(s, HoldersStep(s));
  }

  lemma UnderwayEnds(s: State, t: Tid)
    requires Underway(s, t) && s.threads[t].pc.Unlocking?
    ensures Granted(Do(Do(s, Unlock(t)), Store(t)), t, ChanOf(s, t))
  {
    Releases(s, t);
  }

  lemma {:induction false} Completes(s: State, t: Tid) returns (more: seq<Step>)
    requires Underway(s, t)
    ensures AllOk(more) && Granted(Run(s, more), t, ChanOf(s, t))
    decreases HolderRank(s)
  {
    if s.threads[t].pc.Unlocking? {
      UnderwayEnds(s, t);
      RunFew(s, Unlock(t), Store(t));
      more := [Unlock(t)] + [Store(t)];
    } else {
      UnderwayMoves(s, t);
      var rest := Completes(Do(s, HoldersStep(s)), t);
      RunAfter(s, HoldersStep(s), rest);
      more := [HoldersStep(s)] + rest;
    }
  }

  /** From any state reached in any run, a thread without a channel that finds the
      lock free has one of its own, new, listed and served, after a run in which
      nothing fails. */
  lemma ChannelGranted(n: nat, before: seq<Step>, t: Tid) returns (more: seq<Step>)
    requires var s := Run(Init(n), before); t < |s.threads| && s.threads[t].pc.Fresh? && s.lock.None?
    ensures var s := Run(Init(n), before); AllOk(more) && Granted(Run(s, more), t, |s.chans|)
  {
    var s := Run(Init(n), before);
    RunKeeps(n, before);
    DoomedExact(n, before);
    StepKeeps(s, Lock(t, true));
    StepDooms(s, Lock(t, true));
    var rest := Completes(Do(s, Lock(t, true)), t);
    RunAfter(s, Lock(t, true), rest);
    more := [Lock(t, true)] + rest;
  }

  /** A creation that failed leaves the thread as it was: it can try again, and then
      has a channel if nothing fails. */
  lemma RetryGranted(n: nat, before: seq<Step>, t: Tid) returns (more: seq<Step>)
    requires var s := Run(Init(n), before); t < |s.threads| && s.threads[t].pc.Failing?
    ensures var s := Run(Init(n), before); AllOk(more) && Granted(Run(s, more), t, |s.chans|)
  {
    var s := Run(Init(n), before);
    RunKeeps(n, before);
    RunLast(Init(n), before, Fail(t));
    var rest := ChannelGranted(n, before + [Fail(t)], t);
    RunAfter(s, Fail(t), rest);
    more := [Fail(t)] + rest;
  }

  /** Thread t has given channel c up, and nothing of it is left but its record. */
  predicate GivenUp(s: State, t: Tid, c: Chan) {
    t < |s.threads| && s.threads[t] == Thread(Gone, None) && s.lock == None && c !in s.channels &&
    c < |s.chans| && s.chans[c] == Channel(t, 1, Stopped, true)
  }

  /** A thread that exits while the lock is free gives its channel up: it leaves
      the list, which keeps all others, and its worker stops. */
  lemma ChannelGivenUp(n: nat, before: seq<Step>, t: Tid) returns (more: seq<Step>)
    requires var s := Run(Init(n), before); t < |s.threads| && s.threads[t].pc.Using? && s.lock.None?
    ensures var s := Run(Init(n), before);
      && s.threads[t].chan.Some? && GivenUp(Run(s, more), t, ChanOf(s, t))
      && forall d :: d in Run(s, more).channels <==> d in s.channels && d != ChanOf(s, t)
  {
    UsedChannelsAreServed(n, before, t);
    ListIsLiveChannels(n, before, 0);
    GivesUp(Run(Init(n), before), t);
    more := LeavingRun(Run(Init(n), before), t);
  }

  /** The steps of an exit, one after the other. */
  function Exited(s: State, t: Tid, c: Chan): State {
    Do(Do(Do(Do(Do(s, Leave(t)), LockAgain(t)), Remove(t)), UnlockAgain(t)), Stop(c))
  }

  lemma GivesUp(s: State, t: Tid)
    requires Is(s, t, Using) && s.lock.None? && Distinct(s.channels)
    requires s.chans[ChanOf(s, t)] == Channel(t, 1, Serving, false)
    ensures GivenUp(Exited(s, t, ChanOf(s, t)), t, ChanOf(s, t))
    ensures forall d :: d in Exited(s, t, ChanOf(s, t)).channels <==> d in s.channels && d != ChanOf(s, t)
  {
    LeavesList(s, t);
    WithoutMeaning(s.channels, ChanOf(s, t));
  }

  lemma LeavesList(s: State, t: Tid)
    requires Is(s, t, Using) && s.lock.None? && s.chans[ChanOf(s, t)] == Channel(t, 1, Serving, false)
    ensures
      var c, e := ChanOf(s, t), Exited(s, t, ChanOf(s, t));
      && e.threads == s.threads[t := Thread(Gone, None)] && e.lock == None
      && e.channels == Without(s.channels, c) && e.chans == s.chans[c := Channel(t, 1, Stopped, true)]
  {
  }

  lemma LeavingRun(s: State, t: Tid) returns (more: seq<Step>)
    requires Is(s, t, Using)
    ensures Run(s, more) == Exited(s, t, ChanOf(s, t))
  {
    var two := [Leave(t)] + [LockAgain(t)];
    RunFew(s, Leave(t), LockAgain(t));
    RunLast(s, two, Remove(t));
    RunLast(s, two + [Remove(t)], UnlockAgain(t));
    RunLast(s, two + [Remove(t)] + [UnlockAgain(t)], Stop(ChanOf(s, t)));
    more := two + [Remove(t)] + [UnlockAgain(t)] + [Stop(ChanOf(s, t))];
  }

  /** Such a state is reachable: pthread_create fails in the sandbox. */
  lemma OrphanReachable() returns (steps: seq<Step>)
    ensures Orphaned(Run(Init(1), steps))
  {
    var s := Lone(Spawning, Quiet);
    steps := SentReachable();
    SpawnRefused();
    s, steps := OrphanStep(s, steps, PublishSpawn(0), Lone(AwaitSpawn, Asked(0, SpawnWorker(0))));
    s, steps := OrphanStep(s, steps, Serve(false), Lone(AwaitSpawn, Answered(0, SpawnWorker(0))));
    s, steps := OrphanStep(s, steps, CollectSpawn(0), Lone(AwaitReady, Quiet));
  }

  lemma SentReachable() returns (steps: seq<Step>)
    ensures Run(Init(1), steps) == Lone(Spawning, Quiet)
  {
    var s := Init(1);
    steps := [];
    FdAsked();
    FdAnswered();
    s, steps := OrphanStep(s, steps, Lock(0, true), Lone(Sending, Quiet));
    s, steps := OrphanStep(s, steps, PublishSend(0, true), Lone(AwaitSend, Asked(0, RecvFd(0))));
    s, steps := OrphanStep(s, steps, Serve(true), Lone(AwaitSend, Answered(0, RecvFd(0))));
    s, steps := OrphanStep(s, steps, CollectSend(0, true), Lone(Spawning, Quiet));
  }

  lemma FdAsked()
    ensures Do(Init(1), Lock(0, true)) == Lone(Sending, Quiet)
    ensures Do(Lone(Sending, Quiet), PublishSend(0, true)) == Lone(AwaitSend, Asked(0, RecvFd(0)))
  {
    assert Init(1).threads == [Thread(Fresh, None)];
  }

  lemma FdAnswered()
    ensures Do(Lone(AwaitSend, Asked(0, RecvFd(0))), Serve(true)) == Lone(AwaitSend, Answered(0, RecvFd(0)))
    ensures Do(Lone(AwaitSend, Answered(0, RecvFd(0))), CollectSend(0, true)) == Lone(Spawning, Quiet)
  {
  }

  lemma SpawnRefused()
    ensures Do(Lone(Spawning, Quiet), PublishSpawn(0)) == Lone(AwaitSpawn, Asked(0, SpawnWorker(0)))
    ensures Do(Lone(AwaitSpawn, Asked(0, SpawnWorker(0))), Serve(false)) == Lone(AwaitSpawn, Answered(0, SpawnWorker(0)))
    ensures Do(Lone(AwaitSpawn, Answered(0, SpawnWorker(0))), CollectSpawn(0)) == Lone(AwaitReady, Quiet)
  {
  }

  /** One thread, holding the lock, with a channel nobody serves yet. */
  function Lone(pc: Pc, ctrl: Control): State {
    State([Thread(pc, Some(0))], [Channel(0, 0, Absent, false)], Some(0), ctrl, [], 0)
  }

  lemma OrphanStep(s: State, steps: seq<Step>, step: Step, n: State) returns (r: State, rest: seq<Step>)
    requires s == Run(Init(1), steps) && Do(s, step) == n
    ensures r == n && rest == steps + [step] && r == Run(Init(1), rest)
  {
    r, rest := n, steps + [step];
    assert rest[..|rest| - 1] == steps;
  }

  // ---------------------------------------------------------------------

  /** The channels array of struct PBox. */
  class ChannelList {
    var channels: array<Chan>
    var count: nat

    constructor ()
      ensures Valid() && View() == [] && fresh(channels)
    {
      channels := new Chan[0];
      count := 0;
    }

    ghost predicate Valid()
      reads this
    {
      count <= channels.Length
    }

    ghost function View(): seq<Chan>
      requires Valid()
      reads this, channels
    {
      channels[..count]
    }

    /** Appends at the end of create_channel_locked; grows says whether realloc
        would succeed. */
    method Append(c: Chan, grows: bool) returns (ok: bool)
      requires Valid()
      modifies this, channels
      ensures Valid() && (channels == old(channels) || fresh(channels))
      ensures ok == (old(count < channels.Length) || grows)
      ensures View() == if ok then old(View()) + [c] else old(View())
      ensures channels.Length == if ok then GrownCapacity(old(count), old(channels.Length)) else old(channels.Length)
      ensures ok && channels.Length != old(channels.Length) ==>
        old(count == channels.Length) && channels.Length == if old(channels.Length) == 0 then 4 else 2 * old(channels.Length)
    {
      if count >= channels.Length {
        if !grows {
          return false;
        }
        var newCap := if channels.Length == 0 then 4 else channels.Length * 2;
        var bigger := new Chan[newCap](_ => 0);
        forall i | 0 <= i < count { bigger[i] := channels[i]; }
        assert bigger[..count] == channels[..count];
        channels := bigger;
      }
      channels[count] := c;
      count := count + 1;
      return true;
    }

    /** The removal loop of channel_destructor. */
    method RemoveChannel(c: Chan)
      requires Valid()
      modifies this`count, channels
      ensures Valid() && channels == old(channels)
      ensures View() == Without(old(View()), c)
    {
      for i := 0 to count
        invariant count == old(count) && channels[..count] == old(View()) && c !in channels[..i]
      {
        if channels[i] == c {
          FirstIndex(channels[..count], c, i);
          count := count - 1;
          channels[i] := channels[count];
          assert channels[..count] == Without(old(View()), c);
          return;
        }
      }
      FirstIndex(channels[..count], c, count);
    }
  }

  lemma FirstIndex(s: seq<Chan>, c: Chan, i: nat)
    requires i <= |s| && c !in s[..i] && (i < |s| ==> s[i] == c)
    ensures IndexOf(s, c) == i
  {
  }
}
