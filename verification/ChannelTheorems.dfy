/** Theorems about every run of any number of threads, each calling through a
    channel and a worker of its own, on one host and one sandbox memory. */
module ChannelTheorems {
  import opened Channel
  import opened ChannelRuns
  import opened Common
  import opened Direct
  import opened Types

  /** The channels of all threads and the memories they share. */
  datatype Fleet = Fleet(chans: seq<State>, mem: Memories)

  /** One step of one side of one channel. */
  datatype Turn = Turn(channel: nat, who: Tid)

  ghost predicate AllInv(env: Env, fl: Fleet) {
    forall i | 0 <= i < |fl.chans| :: Inv(env, fl.chans[i])
  }

  ghost function Advance(env: Env, fl: Fleet, t: Turn): (r: Fleet)
    requires WellTyped(env) && AllInv(env, fl)
    ensures |r.chans| == |fl.chans| && AllInv(env, r)
  {
    if t.channel < |fl.chans| then
      StepRefines(env, fl.chans[t.channel], fl.mem, t.who);
      var (st, m) := Step(env, fl.chans[t.channel], fl.mem, t.who);
      Fleet(fl.chans[t.channel := st], m)
    else fl
  }

  /** The fleet after a schedule: any interleaving of all sides' steps. A
      scheduled side that is asleep or finished does nothing. */
  ghost function Sail(env: Env, fl: Fleet, sched: seq<Turn>): (r: Fleet)
    requires WellTyped(env) && AllInv(env, fl)
    ensures |r.chans| == |fl.chans|
    decreases |sched|
  {
    if sched == [] then fl else Sail(env, Advance(env, fl, sched[0]), sched[1..])
  }

  lemma {:induction false} SailKeeps(env: Env, fl: Fleet, sched: seq<Turn>)
    requires WellTyped(env) && AllInv(env, fl)
    ensures AllInv(env, Sail(env, fl, sched))
    decreases |sched|
  {
    if sched != [] {
      SailKeeps(env, Advance(env, fl, sched[0]), sched[1..]);
    }
  }

  predicate Fresh(fl: Fleet) {
    forall i | 0 <= i < |fl.chans| :: Init(fl.chans[i])
  }

  lemma FreshInv(env: Env, fl: Fleet)
    requires WellTyped(env) && Fresh(fl)
    ensures AllInv(env, fl)
  {
    forall i | 0 <= i < |fl.chans| ensures Inv(env, fl.chans[i]) {
      assert Init(fl.chans[i]);
    }
  }

  /** The fleet a schedule reaches from fresh channels. */
  ghost function After(env: Env, fl: Fleet, sched: seq<Turn>): (r: Fleet)
    requires WellTyped(env) && Fresh(fl)
    ensures |r.chans| == |fl.chans|
  {
    FreshInv(env, fl);
    Sail(env, fl, sched)
  }

  /** Every run keeps the protocol invariant of every channel. */
  lemma AfterKeeps(env: Env, fl: Fleet, sched: seq<Turn>)
    requires WellTyped(env) && Fresh(fl)
    ensures AllInv(env, After(env, fl, sched))
  {
    FreshInv(env, fl);
    SailKeeps(env, fl, sched);
  }

  // ---------------------------------------------------------------------
  // Safety: no assumption that any call ends

  /** Exclusive ownership: the worker touches its payload only under REQUEST, the
      host only under IDLE, CALLBACK or, to read a closure's address, RESPONSE;
      so never both. */
  lemma ExclusiveOwnership(env: Env, fl: Fleet, sched: seq<Turn>, i: nat)
    requires WellTyped(env) && Fresh(fl) && i < |fl.chans|
    ensures
      var now := After(env, fl, sched).chans[i];
      && (Touches(now, Worker) ==> now.word == Request)
      && (Touches(now, Host) ==> now.word in {Idle, Callback, Response})
      && (Touches(now, Host) && now.word == Response ==>
           now.host == Peek && now.todo != [] && now.todo[0].Query? && now.todo[0].early)
      && (now.host == Collect ==> now.word == Idle && now.todo != [] && !(now.todo[0].Query? && now.todo[0].early))
      && !(Touches(now, Worker) && Touches(now, Host))
  {
    AfterKeeps(env, fl, sched);
    assert Inv(env, After(env, fl, sched).chans[i]);
  }

  /** Touching is all there is: any other step leaves the payload alone and does
      the same whatever the payload holds. */
  lemma UntouchedPayload(env: Env, st: State, m: Memories, who: Tid, q: Payload)
    requires Runnable(env, st) && !Touches(st, who) && q.Shaped()
    ensures Step(env, st, m, who).0.p == st.p
    ensures Step(env, st.(p := q), m, who) == (Step(env, st, m, who).0.(p := q), Step(env, st, m, who).1)
  {
  }

  /** No lost wakeup: a sleeping side either waits for a store still to come or
      the other side is about to wake it; the two never sleep together. */
  lemma NoLostWakeup(env: Env, fl: Fleet, sched: seq<Turn>, i: nat)
    requires WellTyped(env) && Fresh(fl) && i < |fl.chans|
    ensures
      var now := After(env, fl, sched).chans[i];
      && (now.host == Asleep && now.word in {Response, Callback} ==> now.worker == WWake)
      && (now.worker == WAsleep && now.word == Request ==> now.host == Wake)
      && (now.worker == WAsleep && now.word == Exit ==> now.host == ExitWake)
      && !(now.host == Asleep && now.worker == WAsleep)
  {
    AfterKeeps(env, fl, sched);
    assert Inv(env, After(env, fl, sched).chans[i]);
  }

  predicate Finished(st: State) {
    st.host == Done && st.worker == WExited && st.word == Exit && st.todo == []
  }

  /** No deadlock: a channel's two sides are both stuck only when its thread has
      finished its script and the worker has left its loop. */
  lemma NoDeadlock(env: Env, fl: Fleet, sched: seq<Turn>, i: nat)
    requires WellTyped(env) && Fresh(fl) && i < |fl.chans|
    ensures
      var now := After(env, fl, sched).chans[i];
      (!Enabled(now, Host) && !Enabled(now, Worker)) <==> Finished(now)
  {
    AfterKeeps(env, fl, sched);
    assert Inv(env, After(env, fl, sched).chans[i]);
  }

  // ---------------------------------------------------------------------
  // Refinement: just calling the functions

  ghost function AsWorld(env: Env, fl: Fleet): (w: World)
    requires AllInv(env, fl)
    ensures |w.tasks| == |fl.chans|
  {
    World(seq(|fl.chans|, i requires 0 <= i < |fl.chans| => AsTask(env, fl.chans[i])), fl.mem)
  }

  /** The threads whose segments a schedule runs, in order. */
  ghost function Order(env: Env, fl: Fleet, sched: seq<Turn>): seq<nat>
    requires WellTyped(env) && AllInv(env, fl)
    decreases |sched|
  {
    if sched == [] then []
    else
      var rest := Order(env, Advance(env, fl, sched[0]), sched[1..]);
      var i := sched[0].channel;
      if i < |fl.chans| && RunsSegment(fl.chans[i], sched[0].who) then [i] + rest else rest
  }

  lemma AdvanceRefines(env: Env, fl: Fleet, t: Turn)
    requires WellTyped(env) && AllInv(env, fl)
    ensures AsWorld(env, Advance(env, fl, t))
         == if t.channel < |fl.chans| && RunsSegment(fl.chans[t.channel], t.who)
            then Turned(env, AsWorld(env, fl), t.channel) else AsWorld(env, fl)
  {
    if t.channel < |fl.chans| {
      StepRefines(env, fl.chans[t.channel], fl.mem, t.who);
    }
  }

  /** Every run of the channels is the direct execution of the same threads in
      the order in which the run performs their segments: same memories, same
      results. */
  lemma {:induction false} Refinement(env: Env, fl: Fleet, sched: seq<Turn>)
    requires WellTyped(env) && AllInv(env, fl)
    ensures AllInv(env, Sail(env, fl, sched))
    ensures AsWorld(env, Sail(env, fl, sched)) == Interleaved(env, AsWorld(env, fl), Order(env, fl, sched))
    decreases |sched|
  {
    if sched != [] {
      AdvanceRefines(env, fl, sched[0]);
      Refinement(env, Advance(env, fl, sched[0]), sched[1..]);
      var i, rest := sched[0].channel, Order(env, Advance(env, fl, sched[0]), sched[1..]);
      if i < |fl.chans| && RunsSegment(fl.chans[i], sched[0].who) {
        assert ([i] + rest)[1..] == rest;
      }
    }
  }

  function Script(st: State): Task {
    Task(st.thread, st.todo, [], None, st.log)
  }

  /** The threads as they start, calling directly. */
  function Scripts(fl: Fleet): World {
    World(seq(|fl.chans|, i requires 0 <= i < |fl.chans| => Script(fl.chans[i])), fl.mem)
  }

  lemma FreshScripts(env: Env, fl: Fleet)
    requires WellTyped(env) && Fresh(fl)
    ensures AllInv(env, fl) && AsWorld(env, fl) == Scripts(fl)
  {
    FreshInv(env, fl);
    forall i | 0 <= i < |fl.chans| ensures AsTask(env, fl.chans[i]) == Script(fl.chans[i]) {
      assert Init(fl.chans[i]);
    }
  }

  /** Call transparency for any number of threads: after every schedule there is
      an order of the threads' direct segments that leaves the same memories and
      gives each thread its results so far, with at most one more on its way; a
      thread that has finished has exactly the direct ones. */
  lemma FleetTransparency(env: Env, fl: Fleet, sched: seq<Turn>) returns (order: seq<nat>)
    requires WellTyped(env) && Fresh(fl)
    ensures
      var now, direct := After(env, fl, sched), Interleaved(env, Scripts(fl), order);
      && AllInv(env, now) && direct == AsWorld(env, now) && now.mem == direct.mem
      && forall i | 0 <= i < |fl.chans| ::
           && now.chans[i].log <= direct.tasks[i].log
           && |direct.tasks[i].log| <= |now.chans[i].log| + 1
           && (now.chans[i].host == Done ==> direct.tasks[i] == Task(now.chans[i].thread, [], [], None, now.chans[i].log))
  {
    FreshScripts(env, fl);
    order := Order(env, fl, sched);
    Refinement(env, fl, sched);
    var now, direct := After(env, fl, sched), Interleaved(env, Scripts(fl), order);
    assert direct == AsWorld(env, now);
    forall i | 0 <= i < |fl.chans|
      ensures now.chans[i].log <= direct.tasks[i].log
      ensures |direct.tasks[i].log| <= |now.chans[i].log| + 1
      ensures now.chans[i].host == Done ==> direct.tasks[i] == Task(now.chans[i].thread, [], [], None, now.chans[i].log)
    {
      assert direct.tasks[i] == AsTask(env, now.chans[i]) && Inv(env, now.chans[i]);
    }
  }

  // ---------------------------------------------------------------------
  // Every schedule is linear in the callbacks it makes

  ghost predicate Busy(env: Env, fl: Fleet, sched: seq<Turn>)
    requires WellTyped(env) && AllInv(env, fl)
    decreases |sched|
  {
    sched == [] ||
    (sched[0].channel < |fl.chans| && Enabled(fl.chans[sched[0].channel], sched[0].who) &&
     Busy(env, Advance(env, fl, sched[0]), sched[1..]))
  }

  /** No turn of the schedule went to a sleeping or finished side. */
  ghost predicate Productive(env: Env, fl: Fleet, sched: seq<Turn>)
    requires WellTyped(env) && Fresh(fl)
  {
    FreshInv(env, fl);
    Busy(env, fl, sched)
  }

  function TotalRank(chans: seq<State>, n: nat): nat
    requires n <= |chans|
  {
    if n == 0 then 0 else TotalRank(chans, n - 1) + Rank(chans[n - 1])
  }

  lemma {:induction false} TotalRankUpdate(chans: seq<State>, i: nat, st: State, n: nat)
    requires i < |chans| && n <= |chans|
    ensures TotalRank(chans[i := st], n) == TotalRank(chans, n) + if i < n then Rank(st) - Rank(chans[i]) else 0
  {
    if n > 0 {
      TotalRankUpdate(chans, i, st, n - 1);
    }
  }

  /** Waits of a schedule that end without a wake. */
  function Signals(sched: seq<Turn>): nat {
    if sched == [] then 0 else (if IsSignal(sched[0].who) then 1 else 0) + Signals(sched[1..])
  }

  /** One turn: the ranks of all channels together drop, but for its charge. */
  lemma TurnSpends(env: Env, fl: Fleet, t: Turn)
    requires WellTyped(env) && AllInv(env, fl) && t.channel < |fl.chans| && Enabled(fl.chans[t.channel], t.who)
    ensures var n := Advance(env, fl, t);
      TotalRank(n.chans, |n.chans|) + 1
        <= TotalRank(fl.chans, |fl.chans|) + Charge(env, fl.chans[t.channel], fl.mem, t.who)
  {
    StepSpends(env, fl.chans[t.channel], fl.mem, t.who);
    TotalRankUpdate(fl.chans, t.channel, Step(env, fl.chans[t.channel], fl.mem, t.who).0, |fl.chans|);
  }

  lemma {:induction false} BusySpends(env: Env, fl: Fleet, sched: seq<Turn>)
    requires WellTyped(env) && AllInv(env, fl) && Busy(env, fl, sched)
    ensures |sched| <= TotalRank(fl.chans, |fl.chans|)
                       + 32 * Callbacks(env, AsWorld(env, fl), Order(env, fl, sched)) + 5 * Signals(sched)
    decreases |sched|
  {
    if sched != [] {
      var t, n := sched[0], Advance(env, fl, sched[0]);
      var rest := Order(env, n, sched[1..]);
      TurnSpends(env, fl, t);
      AdvanceRefines(env, fl, t);
      BusySpends(env, n, sched[1..]);
      if RunsSegment(fl.chans[t.channel], t.who) {
        assert ([t.channel] + rest)[1..] == rest;
      }
    }
  }

  function TotalOps(chans: seq<State>, n: nat): nat
    requires n <= |chans|
  {
    if n == 0 then 0 else TotalOps(chans, n - 1) + |chans[n - 1].todo|
  }

  lemma {:induction false} FreshRank(chans: seq<State>, n: nat)
    requires n <= |chans| && forall i | 0 <= i < |chans| :: Init(chans[i])
    ensures TotalRank(chans, n) == 48 * TotalOps(chans, n) + 22 * n
  {
    if n > 0 {
      FreshRank(chans, n - 1);
      assert Init(chans[n - 1]);
    }
  }

  /** Whatever the callees do, a schedule that wastes no turn takes at most 32
      steps per callback made, 48 per operation, 22 per thread and 5 per wait ended
      without a wake. So the channels run for ever only where the direct calls do. */
  lemma Termination(env: Env, fl: Fleet, sched: seq<Turn>) returns (order: seq<nat>)
    requires WellTyped(env) && Fresh(fl) && Productive(env, fl, sched)
    ensures AllInv(env, After(env, fl, sched)) && Interleaved(env, Scripts(fl), order) == AsWorld(env, After(env, fl, sched))
    ensures |sched| <= 32 * Callbacks(env, Scripts(fl), order) + 48 * TotalOps(fl.chans, |fl.chans|)
                       + 22 * |fl.chans| + 5 * Signals(sched)
  {
    FreshScripts(env, fl);
    order := Order(env, fl, sched);
    Refinement(env, fl, sched);
    BusySpends(env, fl, sched);
    FreshRank(fl.chans, |fl.chans|);
  }

  /** So if no order of the direct calls makes more than k callbacks, every
      schedule ends. */
  lemma BoundedCallbacks(env: Env, fl: Fleet, k: nat)
    requires WellTyped(env) && Fresh(fl)
    requires forall order :: Callbacks(env, Scripts(fl), order) <= k
    ensures forall sched | Productive(env, fl, sched) ::
      |sched| <= 32 * k + 48 * TotalOps(fl.chans, |fl.chans|) + 22 * |fl.chans| + 5 * Signals(sched)
  {
    forall sched | Productive(env, fl, sched)
      ensures |sched| <= 32 * k + 48 * TotalOps(fl.chans, |fl.chans|) + 22 * |fl.chans| + 5 * Signals(sched)
    {
      var order := Termination(env, fl, sched);
    }
  }
}
