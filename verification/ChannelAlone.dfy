/** One thread with the sandbox to itself: the channel returns what the plain
    sequence of calls returns, and ends exactly when that sequence does. */
module ChannelAlone {
  import opened Channel
  import opened ChannelRuns
  import opened ChannelTheorems
  import opened Common
  import opened Direct
  import opened Types

  // ---------------------------------------------------------------------
  // Segments of one task

  function Alone(env: Env, t: Task, m: Memories, n: nat): (Task, Memories)
    decreases n
  {
    if n == 0 then (t, m) else var (t1, m1) := Segment(env, t, m); Alone(env, t1, m1, n - 1)
  }

  function CallbacksAlone(env: Env, t: Task, m: Memories, n: nat): nat
    decreases n
  {
    if n == 0 then 0
    else
      var (t1, m1) := Segment(env, t, m);
      (if Begins(t, t1) then 1 else 0) + CallbacksAlone(env, t1, m1, n - 1)
  }

  function Zeros(order: seq<nat>): nat {
    if order == [] then 0 else (if order[0] == 0 then 1 else 0) + Zeros(order[1..])
  }

  /** An order of segments for one thread is only a number of them. */
  lemma {:induction false} OrderIsNumber(env: Env, t: Task, m: Memories, order: seq<nat>)
    ensures var (u, n) := Alone(env, t, m, Zeros(order)); Interleaved(env, World([t], m), order) == World([u], n)
    ensures Callbacks(env, World([t], m), order) == CallbacksAlone(env, t, m, Zeros(order))
    decreases |order|
  {
    if order != [] {
      var w := World([t], m);
      if order[0] == 0 {
        var (t1, m1) := Segment(env, t, m);
        assert Turned(env, w, 0) == World([t1], m1);
        OrderIsNumber(env, t1, m1, order[1..]);
      } else {
        OrderIsNumber(env, t, m, order[1..]);
      }
    }
  }

  lemma {:induction false} AloneSplits(env: Env, t: Task, m: Memories, a: nat, b: nat)
    ensures var (u, n) := Alone(env, t, m, a);
      Alone(env, t, m, a + b) == Alone(env, u, n, b) &&
      CallbacksAlone(env, t, m, a + b) == CallbacksAlone(env, t, m, a) + CallbacksAlone(env, u, n, b)
    decreases a
  {
    if a > 0 {
      var (t1, m1) := Segment(env, t, m);
      AloneSplits(env, t1, m1, a - 1, b);
    }
  }

  lemma {:induction false} DoneStays(env: Env, t: Task, m: Memories, n: nat)
    requires t.todo == []
    ensures Alone(env, t, m, n) == (t, m) && CallbacksAlone(env, t, m, n) == 0
  {
    if n > 0 {
      DoneStays(env, t, m, n - 1);
    }
  }

  lemma {:induction false} LogGrows(env: Env, t: Task, m: Memories, n: nat)
    ensures t.log <= Alone(env, t, m, n).0.log
    decreases n
  {
    if n > 0 {
      var (t1, m1) := Segment(env, t, m);
      LogGrows(env, t1, m1, n - 1);
    }
  }

  /** Two numbers of segments that both finish the task finish it alike. */
  lemma SameEnd(env: Env, t: Task, m: Memories, a: nat, b: nat)
    requires Alone(env, t, m, a).0.todo == [] && a <= b
    ensures Alone(env, t, m, b) == Alone(env, t, m, a)
    ensures CallbacksAlone(env, t, m, b) == CallbacksAlone(env, t, m, a)
  {
    var (u, n) := Alone(env, t, m, a);
    AloneSplits(env, t, m, a, b - a);
    DoneStays(env, u, n, b - a);
  }

  /** Any number of segments is on the way to the end. */
  lemma BeforeTheEnd(env: Env, t: Task, m: Memories, a: nat, b: nat)
    requires Alone(env, t, m, b).0.todo == []
    ensures Alone(env, t, m, a).0.log <= Alone(env, t, m, b).0.log
    ensures CallbacksAlone(env, t, m, a) <= CallbacksAlone(env, t, m, b)
  {
    if a <= b {
      var (u, n) := Alone(env, t, m, a);
      AloneSplits(env, t, m, a, b - a);
      LogGrows(env, u, n, b - a);
    } else {
      SameEnd(env, t, m, b, a);
    }
  }

  // ---------------------------------------------------------------------
  // Segments and calls

  function NextOp(t: Task, x: Bytes): Task
    requires t.todo != []
  {
    Task(t.thread, t.todo[1..], [], None, t.log + [x])
  }

  /** A call that makes k callbacks is 1 + 2k segments. */
  lemma {:induction false} CallSegments(env: Env, t: Task, m: Memories, k: nat)
    requires t.todo != [] && t.todo[0].Call? && t.pending.None?
    requires Makes(env, t.thread, t.todo[0].func, t.todo[0].args, t.results, m, k)
    ensures var op := t.todo[0];
      var (n, x) := Called(env, t.thread, op.func, op.args, t.results, op.sig.ret, m, k);
      Alone(env, t, m, 1 + 2 * k) == (NextOp(t, x), n) && CallbacksAlone(env, t, m, 1 + 2 * k) == k
    decreases k
  {
    var op := t.todo[0];
    var (t1, m1) := Segment(env, t, m);
    if k > 0 {
      var (t2, m2) := Segment(env, t1, m1);
      CallSegments(env, t2, m2, k - 1);
      TwoSegments(env, t, m, 2 * k - 1);
    } else {
      assert Alone(env, t1, m1, 0) == (t1, m1);
    }
  }

  lemma TwoSegments(env: Env, t: Task, m: Memories, n: nat)
    ensures var (t1, m1) := Segment(env, t, m); var (t2, m2) := Segment(env, t1, m1);
      Alone(env, t, m, 2 + n) == Alone(env, t2, m2, n) &&
      CallbacksAlone(env, t, m, 2 + n)
        == (if Begins(t, t1) then 1 else 0) + (if Begins(t1, t2) then 1 else 0) + CallbacksAlone(env, t2, m2, n)
  {
    var (t1, m1) := Segment(env, t, m);
    assert Alone(env, t, m, 2 + n) == Alone(env, t1, m1, 1 + n);
    assert CallbacksAlone(env, t, m, 2 + n) == (if Begins(t, t1) then 1 else 0) + CallbacksAlone(env, t1, m1, 1 + n);
  }

  function OpSegments(op: Op, k: nat): nat {
    if op.Call? then 1 + 2 * k else 1
  }

  lemma OpIsSegments(env: Env, t: Task, m: Memories, k: nat)
    requires t.todo != [] && t.pending.None? && t.results == [] && OpMakes(env, t.thread, t.todo[0], m, k)
    ensures var (n, x) := OpDone(env, t.thread, t.todo[0], m, k);
      Alone(env, t, m, OpSegments(t.todo[0], k)) == (NextOp(t, x), n) &&
      CallbacksAlone(env, t, m, OpSegments(t.todo[0], k)) == k
  {
    if t.todo[0].Call? {
      CallSegments(env, t, m, k);
    } else {
      var (t1, m1) := Segment(env, t, m);
      assert Alone(env, t1, m1, 0) == (t1, m1) && CallbacksAlone(env, t1, m1, 0) == 0;
    }
  }

  function ScriptSegments(ops: seq<Op>, ks: seq<nat>): nat
    requires |ops| == |ks|
  {
    if ops == [] then 0 else OpSegments(ops[0], ks[0]) + ScriptSegments(ops[1..], ks[1..])
  }

  /** A script that makes ks callbacks, run segment by segment, is the script run
      call by call. */
  lemma {:induction false} ScriptIsSegments(env: Env, i: nat, ops: seq<Op>, log: seq<Bytes>, m: Memories, ks: seq<nat>)
    requires ScriptMakes(env, i, ops, m, ks)
    ensures var (n, xs) := ScriptDone(env, i, ops, m, ks);
      Alone(env, Task(i, ops, [], None, log), m, ScriptSegments(ops, ks)) == (Task(i, [], [], None, log + xs), n) &&
      CallbacksAlone(env, Task(i, ops, [], None, log), m, ScriptSegments(ops, ks)) == Sum(ks)
    decreases |ops|
  {
    var t := Task(i, ops, [], None, log);
    if ops == [] {
      assert log + [] == log;
    } else {
      var (m1, x) := OpDone(env, i, ops[0], m, ks[0]);
      OpIsSegments(env, t, m, ks[0]);
      AloneSplits(env, t, m, OpSegments(ops[0], ks[0]), ScriptSegments(ops[1..], ks[1..]));
      ScriptIsSegments(env, i, ops[1..], log + [x], m1, ks[1..]);
      var xs := ScriptDone(env, i, ops[1..], m1, ks[1..]).1;
      assert log + [x] + xs == log + ([x] + xs);
    }
  }

  /** A call that is over after n segments made some number of callbacks. */
  lemma {:induction false} CallEnded(env: Env, t: Task, m: Memories, n: nat) returns (k: nat)
    requires t.todo != [] && t.todo[0].Call? && t.pending.None?
    requires Alone(env, t, m, n).0.todo == []
    ensures Makes(env, t.thread, t.todo[0].func, t.todo[0].args, t.results, m, k) && 1 + 2 * k <= n
    decreases n
  {
    var op := t.todo[0];
    var (t1, m1) := Segment(env, t, m);
    match env.callee(t.thread, op.func, m, op.args, t.results).1
    case Return(_, _) => k := 0;
    case Invoke(cb, x) =>
      assert Alone(env, t1, m1, 0) == (t1, m1);
      var (t2, m2) := Segment(env, t1, m1);
      TwoSegments(env, t, m, n - 2);
      var j := CallEnded(env, t2, m2, n - 2);
      k := j + 1;
  }

  lemma {:induction false} ScriptEnded(env: Env, i: nat, ops: seq<Op>, log: seq<Bytes>, m: Memories, n: nat) returns (ks: seq<nat>)
    requires Alone(env, Task(i, ops, [], None, log), m, n).0.todo == []
    ensures ScriptMakes(env, i, ops, m, ks)
    decreases |ops|
  {
    if ops == [] {
      ks := [];
    } else {
      var t := Task(i, ops, [], None, log);
      var k := 0;
      if ops[0].Call? {
        k := CallEnded(env, t, m, n);
      } else if n == 0 {
        assert false;
      }
      var (m1, x) := OpDone(env, i, ops[0], m, k);
      OpIsSegments(env, t, m, k);
      AloneSplits(env, t, m, OpSegments(ops[0], k), n - OpSegments(ops[0], k));
      var rest := ScriptEnded(env, i, ops[1..], log + [x], m1, n - OpSegments(ops[0], k));
      ks := [k] + rest;
    }
  }

  // ---------------------------------------------------------------------
  // The channel

  function Solo(st: State, m: Memories): Fleet {
    Fleet([st], m)
  }

  ghost function Now(env: Env, st: State, m: Memories, sched: seq<Turn>): State
    requires WellTyped(env) && Init(st)
  {
    After(env, Solo(st, m), sched).chans[0]
  }

  lemma SoloWorld(env: Env, st: State, m: Memories, sched: seq<Turn>) returns (n: nat)
    requires WellTyped(env) && Init(st)
    ensures var now := After(env, Solo(st, m), sched);
      Inv(env, now.chans[0]) && Alone(env, Script(st), m, n) == (AsTask(env, now.chans[0]), now.mem)
    ensures Productive(env, Solo(st, m), sched) ==>
      |sched| <= 32 * CallbacksAlone(env, Script(st), m, n) + 48 * |st.todo| + 22 + 5 * Signals(sched)
  {
    var fl := Solo(st, m);
    assert Scripts(fl) == World([Script(st)], m);
    var order;
    if Productive(env, fl, sched) {
      order := Termination(env, fl, sched);
      assert TotalOps(fl.chans, 1) == TotalOps(fl.chans, 0) + |st.todo|;
    } else {
      order := FleetTransparency(env, fl, sched);
    }
    n := Zeros(order);
    OrderIsNumber(env, Script(st), m, order);
    assert AsWorld(env, After(env, fl, sched)).tasks[0] == AsTask(env, After(env, fl, sched).chans[0]);
  }

  /** Call transparency: under every interleaving, a run that can go no further
      shows that the direct calls end, and has exactly their results, host memory
      and sandbox memory. */
  lemma CallTransparency(env: Env, st: State, m: Memories, sched: seq<Turn>) returns (ks: seq<nat>)
    requires WellTyped(env) && Init(st)
    requires !Enabled(Now(env, st, m, sched), Host) && !Enabled(Now(env, st, m, sched), Worker)
    ensures ScriptMakes(env, st.thread, st.todo, m, ks)
    ensures var (n, xs) := ScriptDone(env, st.thread, st.todo, m, ks);
      After(env, Solo(st, m), sched).mem == n && Now(env, st, m, sched).log == st.log + xs
  {
    NoDeadlock(env, Solo(st, m), sched, 0);
    var n := SoloWorld(env, st, m, sched);
    ks := ScriptEnded(env, st.thread, st.todo, st.log, m, n);
    ScriptIsSegments(env, st.thread, st.todo, st.log, m, ks);
    var s := ScriptSegments(st.todo, ks);
    if n <= s { SameEnd(env, Script(st), m, n, s); } else { SameEnd(env, Script(st), m, s, n); }
  }

  /** So a call through the channel answers with the value its function returns
      with, taken from the return register, once it has had its callback results. */
  lemma CallAnswers(env: Env, st: State, m: Memories, sched: seq<Turn>) returns (last: Memories, results: seq<Bytes>)
    requires WellTyped(env) && Init(st) && |st.todo| == 1 && st.todo[0].Call?
    requires !Enabled(Now(env, st, m, sched), Host) && !Enabled(Now(env, st, m, sched), Worker)
    ensures
      var op, now := st.todo[0], Now(env, st, m, sched);
      var (n, reply) := env.callee(st.thread, op.func, last, op.args, results);
      && reply.Return? && After(env, Solo(st, m), sched).mem == n
      && |now.log| == |st.log| + 1 && now.log[..|st.log|] == st.log
      && ReturnValue(op.sig.ret, reply.intVal, reply.floatVal, now.log[|st.log|])
  {
    var ks := CallTransparency(env, st, m, sched);
    var op := st.todo[0];
    last, results := CallReturns(env, st.thread, op.func, op.args, [], op.sig.ret, m, ks[0]);
    OneOpScript(env, st.thread, op, m, ks);
    assert st.todo == [op];
  }

  lemma OneOpScript(env: Env, i: nat, op: Op, m: Memories, ks: seq<nat>)
    requires ScriptMakes(env, i, [op], m, ks)
    ensures OpMakes(env, i, op, m, ks[0])
    ensures var (n, x) := OpDone(env, i, op, m, ks[0]); ScriptDone(env, i, [op], m, ks) == (n, [x])
  {
    assert [op][1..] == [] && ks[1..] == [];
    var (n, x) := OpDone(env, i, op, m, ks[0]);
    var rest: seq<nat> := ks[1..];
    assert ScriptDone(env, i, [op][1..], n, rest) == (n, []) && [x] + [] == [x];
  }

  lemma LogSoFar(env: Env, st: State)
    requires Inv(env, st)
    ensures st.log <= AsTask(env, st).log
  {
  }

  /** At every point of every run, the results returned so far are the first
      results of the direct calls. */
  lemma ResultsSoFar(env: Env, st: State, m: Memories, sched: seq<Turn>, ks: seq<nat>)
    requires WellTyped(env) && Init(st) && ScriptMakes(env, st.thread, st.todo, m, ks)
    ensures Now(env, st, m, sched).log <= st.log + ScriptDone(env, st.thread, st.todo, m, ks).1
  {
    var n := SoloWorld(env, st, m, sched);
    var s := ScriptSegments(st.todo, ks);
    LogSoFar(env, Now(env, st, m, sched));
    ScriptIsSegments(env, st.thread, st.todo, st.log, m, ks);
    BeforeTheEnd(env, Script(st), m, n, s);
  }

  /** Direct calls that make ks callbacks take every schedule of the channel at
      most 32 steps per callback, 48 per operation, 5 per wait ended without a wake
      and 22 more. */
  lemma LinearTermination(env: Env, st: State, m: Memories, sched: seq<Turn>, ks: seq<nat>)
    requires WellTyped(env) && Init(st) && ScriptMakes(env, st.thread, st.todo, m, ks)
    requires Productive(env, Solo(st, m), sched)
    ensures |sched| <= 32 * Sum(ks) + 48 * |st.todo| + 22 + 5 * Signals(sched)
  {
    var n := SoloWorld(env, st, m, sched);
    var s := ScriptSegments(st.todo, ks);
    ScriptIsSegments(env, st.thread, st.todo, st.log, m, ks);
    BeforeTheEnd(env, Script(st), m, n, s);
  }

  /** A schedule as long as wanted, or up to the end. */
  lemma {:induction false} KeepGoing(env: Env, fl: Fleet, b: nat) returns (sched: seq<Turn>)
    requires WellTyped(env) && AllInv(env, fl) && |fl.chans| == 1
    ensures Busy(env, fl, sched) && Signals(sched) == 0 && (|sched| == b || Finished(Sail(env, fl, sched).chans[0]))
    decreases b
  {
    var st := fl.chans[0];
    if b == 0 || (!Enabled(st, Host) && !Enabled(st, Worker)) {
      sched := [];
      assert Inv(env, st);
    } else {
      var t := Turn(0, if Enabled(st, Host) then Host else Worker);
      var rest := KeepGoing(env, Advance(env, fl, t), b - 1);
      sched := [t] + rest;
      assert sched[1..] == rest;
    }
  }

  ghost predicate EndsWithin(env: Env, st: State, m: Memories, b: nat)
    requires WellTyped(env) && Init(st)
  {
    forall sched | Productive(env, Solo(st, m), sched) :: |sched| <= b + 5 * Signals(sched)
  }

  lemma BoundedMeansEnding(env: Env, st: State, m: Memories, b: nat) returns (ks: seq<nat>)
    requires WellTyped(env) && Init(st) && EndsWithin(env, st, m, b)
    ensures ScriptMakes(env, st.thread, st.todo, m, ks)
  {
    FreshInv(env, Solo(st, m));
    var sched := KeepGoing(env, Solo(st, m), b + 1);
    assert Productive(env, Solo(st, m), sched);
    ks := CallTransparency(env, st, m, sched);
  }

  lemma EndingMeansBounded(env: Env, st: State, m: Memories, ks: seq<nat>) returns (b: nat)
    requires WellTyped(env) && Init(st) && ScriptMakes(env, st.thread, st.todo, m, ks)
    ensures EndsWithin(env, st, m, b)
  {
    b := 32 * Sum(ks) + 48 * |st.todo| + 22;
    forall sched | Productive(env, Solo(st, m), sched)
      ensures |sched| <= b + 5 * Signals(sched)
    {
      LinearTermination(env, st, m, sched, ks);
    }
  }

  ghost predicate AllSchedulesEnd(env: Env, st: State, m: Memories)
    requires WellTyped(env) && Init(st)
  {
    exists b: nat :: EndsWithin(env, st, m, b)
  }

  ghost predicate DirectCallsEnd(env: Env, i: nat, ops: seq<Op>, m: Memories) {
    exists ks :: ScriptMakes(env, i, ops, m, ks)
  }

  /** Calls that end directly do end through the channel: some schedule finishes
      the script, with the direct results and memories. */
  lemma CallsComplete(env: Env, st: State, m: Memories, ks: seq<nat>) returns (sched: seq<Turn>)
    requires WellTyped(env) && Init(st) && ScriptMakes(env, st.thread, st.todo, m, ks)
    ensures Finished(Now(env, st, m, sched))
    ensures var (n, xs) := ScriptDone(env, st.thread, st.todo, m, ks);
      After(env, Solo(st, m), sched).mem == n && Now(env, st, m, sched).log == st.log + xs
  {
    FreshInv(env, Solo(st, m));
    var b := EndingMeansBounded(env, st, m, ks);
    sched := KeepGoing(env, Solo(st, m), b + 1);
    assert Productive(env, Solo(st, m), sched);
    var js := CallTransparency(env, st, m, sched);
    SameScript(env, st.thread, st.todo, m, ks, js);
  }

  lemma {:induction false} SameMakes(env: Env, i: nat, f: nat, a: seq<Bytes>, rs: seq<Bytes>, m: Memories, k: nat, j: nat)
    requires Makes(env, i, f, a, rs, m, k) && Makes(env, i, f, a, rs, m, j)
    ensures k == j
    decreases k
  {
    var (n, reply) := env.callee(i, f, m, a, rs);
    match reply
    case Return(_, _) =>
    case Invoke(cb, x) =>
      var (n', r) := env.host(i, n, cb, x);
      SameMakes(env, i, f, a, rs + [r], n', k - 1, j - 1);
  }

  lemma {:induction false} SameScript(env: Env, i: nat, ops: seq<Op>, m: Memories, ks: seq<nat>, js: seq<nat>)
    requires ScriptMakes(env, i, ops, m, ks) && ScriptMakes(env, i, ops, m, js)
    ensures ks == js
    decreases |ops|
  {
    if ops != [] {
      if ops[0].Call? {
        SameMakes(env, i, ops[0].func, ops[0].args, [], m, ks[0], js[0]);
      }
      SameScript(env, i, ops[1..], OpDone(env, i, ops[0], m, ks[0]).0, ks[1..], js[1..]);
      assert ks == [ks[0]] + ks[1..] && js == [js[0]] + js[1..];
    }
  }

  /** The channel's schedules are bounded exactly when the direct calls end. */
  lemma TerminationExact(env: Env, st: State, m: Memories)
    requires WellTyped(env) && Init(st)
    ensures AllSchedulesEnd(env, st, m) <==> DirectCallsEnd(env, st.thread, st.todo, m)
  {
    if AllSchedulesEnd(env, st, m) {
      var b: nat :| EndsWithin(env, st, m, b);
      var ks := BoundedMeansEnding(env, st, m, b);
    }
    if DirectCallsEnd(env, st.thread, st.todo, m) {
      var ks :| ScriptMakes(env, st.thread, st.todo, m, ks);
      var b := EndingMeansBounded(env, st, m, ks);
      assert AllSchedulesEnd(env, st, m);
    }
  }
}
