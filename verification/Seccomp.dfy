/** The sandbox's seccomp filters: an allowlist compiled to BPF with
    hand-counted jumps, and the worker filter stacked on top. */
module Seccomp {

  // ---------------------------------------------------------------------
  // The BPF machine, as far as the filters use it

  /** struct seccomp_data: syscall number, architecture, first argument. */
  datatype Data = Data(nr: nat, arch: nat, arg0: nat)

  const OFFSET_NR: nat := 0
  const OFFSET_ARCH: nat := 4
  const OFFSET_ARG0: nat := 16

  /** The 32-bit word a load fetches; argument loads see the low half only. */
  function Field(d: Data, offset: nat): nat {
    if offset == OFFSET_NR then d.nr
    else if offset == OFFSET_ARCH then d.arch
    else if offset == OFFSET_ARG0 then d.arg0 % 0x1_0000_0000
    else 0
  }

  datatype Action = Kill | Errno(e: nat) | Allow

  datatype Insn = Load(offset: nat) | JumpEq(k: nat, jt: nat, jf: nat) | Ret(action: Action)

  /** Stuck stands for running off the end of the program. */
  datatype Outcome = Done(action: Action) | Stuck

  function Exec(prog: seq<Insn>, pc: nat, acc: nat, d: Data): Outcome
    decreases |prog| - pc
  {
    if pc >= |prog| then Stuck
    else
      match prog[pc]
      case Load(offset) => Exec(prog, pc + 1, Field(d, offset), d)
      case JumpEq(k, jt, jf) => Exec(prog, pc + 1 + if acc == k then jt else jf, acc, d)
      case Ret(action) => Done(action)
  }

  /** The kernel's static check: jumps land inside and the last instruction
      returns. */
  predicate Checked(prog: seq<Insn>) {
    prog != [] && prog[|prog| - 1].Ret? &&
    forall pc | 0 <= pc < |prog| && prog[pc].JumpEq? ::
      pc + 1 + prog[pc].jt < |prog| && pc + 1 + prog[pc].jf < |prog|
  }

  // ---------------------------------------------------------------------
  // The macros

  const ENOSYS: nat := 38

  /** One allowlist line: a plain syscall, or one allowed for a single value of
      its first argument. */
  datatype Entry = Plain(nr: nat) | Guarded(nr: nat, value: nat)

  function Emit(e: Entry): seq<Insn> {
    match e
    case Plain(nr) => [JumpEq(nr, 0, 1), Ret(Allow)]
    case Guarded(nr, value) =>
      [JumpEq(nr, 0, 3), Load(OFFSET_ARG0), JumpEq(value, 0, 1), Ret(Allow), Load(OFFSET_NR)]
  }

  function EmitAll(es: seq<Entry>): seq<Insn> {
    if es == [] then [] else Emit(es[0]) + EmitAll(es[1..])
  }

  function BaseFilter(arch: nat, es: seq<Entry>): seq<Insn> {
    [Load(OFFSET_ARCH), JumpEq(arch, 1, 0), Ret(Kill), Load(OFFSET_NR)] + EmitAll(es) + [Ret(Errno(ENOSYS))]
  }

  function EmitBlocks(nrs: seq<nat>): seq<Insn> {
    if nrs == [] then [] else [JumpEq(nrs[0], 0, 1), Ret(Errno(ENOSYS))] + EmitBlocks(nrs[1..])
  }

  function WorkerFilter(nrs: seq<nat>): seq<Insn> {
    [Load(OFFSET_NR)] + EmitBlocks(nrs) + [Ret(Allow)]
  }

  // ---------------------------------------------------------------------
  // What the allowlist means

  predicate Permits(e: Entry, d: Data) {
    d.nr == e.nr && (e.Guarded? ==> d.arg0 % 0x1_0000_0000 == e.value)
  }

  predicate Listed(es: seq<Entry>, d: Data) {
    exists e | e in es :: Permits(e, d)
  }

  function Verdict(arch: nat, es: seq<Entry>, d: Data): Action {
    if d.arch != arch then Kill else if Listed(es, d) then Allow else Errno(ENOSYS)
  }

  /** Code sits at pc of prog. */
  predicate At(prog: seq<Insn>, pc: nat, code: seq<Insn>) {
    pc + |code| <= |prog| && prog[pc..pc + |code|] == code
  }

  lemma AtSplit(prog: seq<Insn>, pc: nat, a: seq<Insn>, b: seq<Insn>)
    requires At(prog, pc, a + b)
    ensures At(prog, pc, a) && At(prog, pc + |a|, b)
  {
    var s := prog[pc..pc + |a| + |b|];
    assert s[..|a|] == a && s[|a|..] == b;
  }

  lemma GuardedRuns(prog: seq<Insn>, pc: nat, nr: nat, value: nat, d: Data)
    requires pc + 5 <= |prog| && prog[pc] == JumpEq(nr, 0, 3) && prog[pc + 1] == Insn.Load(OFFSET_ARG0)
    requires prog[pc + 2] == JumpEq(value, 0, 1) && prog[pc + 3] == Ret(Allow) && prog[pc + 4] == Insn.Load(OFFSET_NR)
    ensures Exec(prog, pc, d.nr, d)
         == if Permits(Guarded(nr, value), d) then Done(Allow) else Exec(prog, pc + 5, d.nr, d)
  {
    var arg := Field(d, OFFSET_ARG0);
    assert Exec(prog, pc, d.nr, d) == Exec(prog, if d.nr == nr then pc + 1 else pc + 4, d.nr, d);
    assert Exec(prog, pc + 1, d.nr, d) == Exec(prog, pc + 2, arg, d);
    assert Exec(prog, pc + 2, arg, d) == Exec(prog, if arg == value then pc + 3 else pc + 4, arg, d);
    assert Exec(prog, pc + 3, arg, d) == Done(Allow);
    assert Exec(prog, pc + 4, arg, d) == Exec(prog, pc + 5, d.nr, d) == Exec(prog, pc + 4, d.nr, d);
  }

  /** One allowlist line either allows, or falls through with the syscall
      number in the accumulator again. */
  lemma EmitRuns(prog: seq<Insn>, pc: nat, e: Entry, d: Data)
    requires At(prog, pc, Emit(e))
    ensures Exec(prog, pc, d.nr, d)
         == if Permits(e, d) then Done(Allow) else Exec(prog, pc + |Emit(e)|, d.nr, d)
  {
    var code := prog[pc..pc + |Emit(e)|];
    assert prog[pc] == code[0] && prog[pc + 1] == code[1];
    if e.Guarded? {
      assert prog[pc + 2] == code[2] && prog[pc + 3] == code[3] && prog[pc + 4] == code[4];
      GuardedRuns(prog, pc, e.nr, e.value, d);
    } else {
      assert Exec(prog, pc, d.nr, d) == Exec(prog, if d.nr == e.nr then pc + 1 else pc + 2, d.nr, d);
      assert Exec(prog, pc + 1, d.nr, d) == Done(Allow);
    }
  }

  lemma ListedSplit(es: seq<Entry>, d: Data)
    requires es != []
    ensures Listed(es, d) == (Permits(es[0], d) || Listed(es[1..], d))
  {
    assert es == [es[0]] + es[1..];
  }

  lemma {:induction false} EmitAllRuns(prog: seq<Insn>, pc: nat, es: seq<Entry>, d: Data)
    requires At(prog, pc, EmitAll(es))
    ensures Exec(prog, pc, d.nr, d)
         == if Listed(es, d) then Done(Allow) else Exec(prog, pc + |EmitAll(es)|, d.nr, d)
    decreases |es|
  {
    if es != [] {
      AtSplit(prog, pc, Emit(es[0]), EmitAll(es[1..]));
      EmitRuns(prog, pc, es[0], d);
      EmitAllRuns(prog, pc + |Emit(es[0])|, es[1..], d);
      ListedSplit(es, d);
      assert pc + |EmitAll(es)| == pc + |Emit(es[0])| + |EmitAll(es[1..])|;
    }
  }

  /** The compiled filter is the allowlist: for every syscall it terminates with
      all jumps in range, kills on a foreign architecture, allows exactly what is
      listed and answers ENOSYS otherwise. */
  lemma BaseFilterCorrect(arch: nat, es: seq<Entry>, acc: nat, d: Data)
    ensures Exec(BaseFilter(arch, es), 0, acc, d) == Done(Verdict(arch, es, d))
  {
    var prog, n := BaseFilter(arch, es), |EmitAll(es)|;
    assert prog[4..4 + n] == EmitAll(es);
    assert Exec(prog, 0, acc, d) == Exec(prog, 1, d.arch, d);
    if d.arch == arch {
      assert Exec(prog, 1, d.arch, d) == Exec(prog, 3, d.arch, d) == Exec(prog, 4, d.nr, d);
      EmitAllRuns(prog, 4, es, d);
      assert prog[4 + n] == Ret(Errno(ENOSYS));
    }
  }

  lemma {:induction false} EmitBlocksRuns(prog: seq<Insn>, pc: nat, nrs: seq<nat>, d: Data)
    requires At(prog, pc, EmitBlocks(nrs))
    ensures Exec(prog, pc, d.nr, d)
         == if d.nr in nrs then Done(Errno(ENOSYS)) else Exec(prog, pc + |EmitBlocks(nrs)|, d.nr, d)
    decreases |nrs|
  {
    if nrs != [] {
      var block := [JumpEq(nrs[0], 0, 1), Ret(Errno(ENOSYS))];
      AtSplit(prog, pc, block, EmitBlocks(nrs[1..]));
      assert prog[pc] == prog[pc..pc + 2][0] && prog[pc + 1] == prog[pc..pc + 2][1];
      EmitBlocksRuns(prog, pc + 2, nrs[1..], d);
    }
  }

  lemma WorkerFilterCorrect(nrs: seq<nat>, acc: nat, d: Data)
    ensures Exec(WorkerFilter(nrs), 0, acc, d) == Done(if d.nr in nrs then Errno(ENOSYS) else Allow)
  {
    var prog, n := WorkerFilter(nrs), |EmitBlocks(nrs)|;
    assert prog[1..1 + n] == EmitBlocks(nrs);
    assert Exec(prog, 0, acc, d) == Exec(prog, 1, d.nr, d);
    EmitBlocksRuns(prog, 1, nrs, d);
    assert prog[1 + n] == Ret(Allow);
  }

  /** How the kernel combines stacked filters: the most restrictive wins. */
  function Strictest(a: Action, b: Action): Action {
    if a.Kill? || b.Kill? then Kill
    else if a.Errno? then a
    else b
  }

  function Stacked(filters: seq<seq<Insn>>, d: Data): Action {
    if filters == [] then Allow
    else
      var rest := Stacked(filters[1..], d);
      match Exec(filters[0], 0, 0, d)
      case Done(a) => Strictest(a, rest)
      case Stuck => Kill
  }

  // Static checks

  /** Every jump of code stays inside it or lands just behind it. */
  predicate Contained(code: seq<Insn>) {
    forall pc | 0 <= pc < |code| && code[pc].JumpEq? ::
      pc + 1 + code[pc].jt <= |code| && pc + 1 + code[pc].jf <= |code|
  }

  lemma ContainedAppend(a: seq<Insn>, b: seq<Insn>)
    requires Contained(a) && Contained(b)
    ensures Contained(a + b)
  {
  }

  lemma {:induction false} EmitAllContained(es: seq<Entry>)
    ensures Contained(EmitAll(es))
  {
    if es != [] {
      EmitAllContained(es[1..]);
      ContainedAppend(Emit(es[0]), EmitAll(es[1..]));
    }
  }

  lemma {:induction false} EmitBlocksContained(nrs: seq<nat>)
    ensures Contained(EmitBlocks(nrs))
  {
    if nrs != [] {
      EmitBlocksContained(nrs[1..]);
      ContainedAppend([JumpEq(nrs[0], 0, 1), Ret(Errno(ENOSYS))], EmitBlocks(nrs[1..]));
    }
  }

  /** The kernel accepts both filters, for any lists. */
  lemma FiltersChecked(arch: nat, es: seq<Entry>, nrs: seq<nat>)
    ensures Checked(BaseFilter(arch, es)) && Checked(WorkerFilter(nrs))
  {
    EmitAllContained(es);
    EmitBlocksContained(nrs);
  }

  // ---------------------------------------------------------------------
  // The lists in the file

  datatype Sys =
    | Brk | Mmap | Munmap | Mprotect | Mremap | Madvise | Close | Recvmsg | Socketcall
    | Futex | FutexWaitv | SetTidAddress | SetRobustList | GetRobustList | Rseq
    | RtSigaction | RtSigprocmask | RtSigreturn | Sigaltstack | ExitThread | ExitGroup
    | ArchPrctl | Prctl | Getpid | Gettid | Getuid | Geteuid | Getgid | Getegid
    | Getrandom | ClockGettime | ClockGetres | Gettimeofday | Nanosleep | ClockNanosleep
    | SchedYield | SchedGetaffinity | Clone | Clone3 | Tgkill | Membarrier

  /** The numbers an architecture's headers define; a missing name is one the
      preprocessor leaves out. */
  type Numbers = map<Sys, nat>

  const PR_SET_SECCOMP: nat := 22
  const SYS_RECVMSG: nat := 17

  function AllowOrder(): seq<Sys> {
    [Brk, Mmap, Munmap, Mprotect, Mremap, Madvise, Close, Recvmsg, Socketcall,
     Futex, FutexWaitv, SetTidAddress, SetRobustList, GetRobustList, Rseq,
     RtSigaction, RtSigprocmask, RtSigreturn, Sigaltstack, ExitThread, ExitGroup,
     ArchPrctl, Prctl, Getpid, Gettid, Getuid, Geteuid, Getgid, Getegid,
     Getrandom, ClockGettime, ClockGetres, Gettimeofday, Nanosleep, ClockNanosleep,
     SchedYield, SchedGetaffinity, Clone, Clone3, Tgkill, Membarrier]
  }

  function EntryOf(s: Sys, nr: nat): Entry {
    match s
    case Socketcall => Guarded(nr, SYS_RECVMSG)
    case Prctl => Guarded(nr, PR_SET_SECCOMP)
    case _ => Plain(nr)
  }

  function Lines(order: seq<Sys>, ns: Numbers): seq<Entry> {
    if order == [] then []
    else (if order[0] in ns then [EntryOf(order[0], ns[order[0]])] else []) + Lines(order[1..], ns)
  }

  function SandboxFilter(arch: nat, ns: Numbers): seq<Insn> {
    BaseFilter(arch, Lines(AllowOrder(), ns))
  }

  function Blocked(ns: Numbers): seq<nat> {
    (if Clone in ns then [ns[Clone]] else []) + if Clone3 in ns then [ns[Clone3]] else []
  }

  /** The policy in one sentence: the listed syscalls, prctl only to install a
      filter, socketcall only to receive a message. */
  ghost predicate Policy(ns: Numbers, d: Data) {
    exists s | s in ns :: d.nr == ns[s] && Complies(s, d)
  }

  lemma {:induction false} LinesListed(order: seq<Sys>, ns: Numbers, d: Data)
    ensures Listed(Lines(order, ns), d) <==> exists s | s in order :: s in ns && Permits(EntryOf(s, ns[s]), d)
    decreases |order|
  {
    if order != [] {
      LinesListed(order[1..], ns, d);
      assert order == [order[0]] + order[1..];
      var head := if order[0] in ns then [EntryOf(order[0], ns[order[0]])] else [];
      assert Lines(order, ns) == head + Lines(order[1..], ns);
    }
  }

  lemma OrderComplete(s: Sys)
    ensures s in AllowOrder()
  {
  }

  predicate Complies(s: Sys, d: Data) {
    (s == Prctl ==> d.arg0 % 0x1_0000_0000 == 22) &&
    (s == Socketcall ==> d.arg0 % 0x1_0000_0000 == 17)
  }

  lemma LinesArePolicy(order: seq<Sys>, ns: Numbers, d: Data)
    requires forall s: Sys :: s in order
    ensures Listed(Lines(order, ns), d) <==> Policy(ns, d)
  {
    LinesListed(order, ns, d);
    forall s | s in ns ensures Permits(EntryOf(s, ns[s]), d) == (d.nr == ns[s] && Complies(s, d)) {
    }
  }

  /** The main thread's filter implements the policy exactly. */
  lemma SandboxFilterCorrect(arch: nat, ns: Numbers, d: Data)
    ensures Stacked([SandboxFilter(arch, ns)], d)
         == if d.arch != arch then Kill else if Policy(ns, d) then Allow else Errno(38)
  {
    BaseFilterCorrect(arch, Lines(AllowOrder(), ns), 0, d);
    forall s: Sys ensures s in AllowOrder() { OrderComplete(s); }
    LinesArePolicy(AllowOrder(), ns, d);
    assert [SandboxFilter(arch, ns)][1..] == [];
  }

  /** The call is clone or clone3. */
  predicate StartsThread(ns: Numbers, d: Data) {
    (Clone in ns && d.nr == ns[Clone]) || (Clone3 in ns && d.nr == ns[Clone3])
  }

  /** A worker's two filters together: the same policy minus clone and clone3. */
  lemma WorkerStackCorrect(arch: nat, ns: Numbers, d: Data)
    ensures Stacked([WorkerFilter(Blocked(ns)), SandboxFilter(arch, ns)], d)
         == if d.arch != arch then Kill
            else if Policy(ns, d) && !StartsThread(ns, d) then Allow
            else Errno(38)
  {
    SandboxFilterCorrect(arch, ns, d);
    WorkerFilterCorrect(Blocked(ns), 0, d);
    assert [WorkerFilter(Blocked(ns)), SandboxFilter(arch, ns)][1..] == [SandboxFilter(arch, ns)];
  }

  /** Why prctl is guarded rather than dropped: under the base filter a worker
      can still install its own filter, and having done so it can start no
      further thread, whatever other number clone shares. */
  lemma WorkerLocksItself(arch: nat, ns: Numbers, install: Data, spawn: Data)
    requires Prctl in ns && Clone in ns
    requires install == Data(ns[Prctl], arch, PR_SET_SECCOMP)
    requires spawn.arch == arch && (spawn.nr == ns[Clone] || (Clone3 in ns && spawn.nr == ns[Clone3]))
    ensures Stacked([SandboxFilter(arch, ns)], spawn) == Allow
    ensures Stacked([WorkerFilter(Blocked(ns)), SandboxFilter(arch, ns)], spawn) == Errno(ENOSYS)
    ensures Stacked([SandboxFilter(arch, ns)], install) == Allow
  {
    SandboxFilterCorrect(arch, ns, install);
    assert Policy(ns, install) by { assert install.nr == ns[Prctl]; }
    SandboxFilterCorrect(arch, ns, spawn);
    assert Policy(ns, spawn) by {
      if spawn.nr == ns[Clone] { assert Complies(Clone, spawn); } else { assert Complies(Clone3, spawn); }
    }
    WorkerStackCorrect(arch, ns, spawn);
  }
}
