/** The LFI backend: arguments in registers and on the sandbox stack, and
    CallContext cells below the saved stack pointer. */
module LfiStack {
  import opened Alignment
  import opened Marshal
  import opened Memory
  import opened Types

  // ---------------------------------------------------------------------
  // The stack discipline

  datatype Cell = Cell(addr: nat, size: nat, align: nat)

  /** An open CallContext: the stack pointer it saved and its cells so far. */
  datatype Frame = Frame(saved: nat, cells: seq<Cell>)

  datatype CellStack = CellStack(sp: nat, frames: seq<Frame>)

  datatype Op = Open | Push(size: nat, align: nat) | Close

  /** There is stack left below sp, and stack_push serves an open context. */
  predicate Can(s: CellStack, op: Op) {
    match op
    case Open => true
    case Push(size, align) => s.frames != [] && PowerOfTwo(align) && size + align <= s.sp
    case Close => s.frames != []
  }

  function Top(s: CellStack): Frame
    requires s.frames != []
  {
    s.frames[|s.frames| - 1]
  }

  function After(s: CellStack, op: Op): CellStack
    requires Can(s, op)
  {
    match op
    case Open => s.(frames := s.frames + [Frame(s.sp, [])])
    case Push(size, align) =>
      var p := AlignDown(s.sp - size, align);
      CellStack(p, s.frames[|s.frames| - 1 := Top(s).(cells := Top(s).cells + [Cell(p, size, align)])])
    case Close => CellStack(Top(s).saved, s.frames[..|s.frames| - 1])
  }

  /** The lowest address frame k may use. */
  function Floor(s: CellStack, k: nat): nat
    requires k < |s.frames|
  {
    if k + 1 < |s.frames| then s.frames[k + 1].saved else s.sp
  }

  predicate CellFits(f: Frame, floor: nat, i: nat)
    requires i < |f.cells|
  {
    var c := f.cells[i];
    c.align > 0 && c.addr % c.align == 0 && floor <= c.addr && c.addr + c.size <= f.saved &&
    (i > 0 ==> c.addr + c.size <= f.cells[i - 1].addr)
  }

  predicate GoodFrame(f: Frame, floor: nat) {
    floor <= f.saved && forall i | 0 <= i < |f.cells| :: CellFits(f, floor, i)
  }

  /** Each open context's cells fill downwards from the stack pointer it saved,
      and stop above the next context's. */
  predicate Good(s: CellStack) {
    forall k | 0 <= k < |s.frames| :: GoodFrame(s.frames[k], Floor(s, k))
  }

  lemma AfterGood(s: CellStack, op: Op)
    requires Good(s) && Can(s, op)
    ensures Good(After(s, op))
  {
    var n := After(s, op);
    forall k | 0 <= k < |n.frames| ensures GoodFrame(n.frames[k], Floor(n, k)) {
      if k < |s.frames| {
        assert GoodFrame(s.frames[k], Floor(s, k));
        if op.Push? && k == |s.frames| - 1 {
          PushFits(s, op.size, op.align);
        }
      }
    }
  }

  lemma PushFits(s: CellStack, size: nat, align: nat)
    requires Good(s) && Can(s, Push(size, align))
    ensures var n := After(s, Push(size, align)); GoodFrame(Top(n), n.sp)
  {
    var n := After(s, Push(size, align));
    assert GoodFrame(Top(s), s.sp);
    forall i | 0 <= i < |Top(n).cells| ensures CellFits(Top(n), n.sp, i) {
      if i < |Top(s).cells| {
        assert CellFits(Top(s), s.sp, i);
      } else if i > 0 {
        assert CellFits(Top(s), s.sp, i - 1);
      }
    }
  }

  lemma PushedCell(s: CellStack, size: nat, align: nat)
    requires Can(s, Push(size, align))
    ensures var n := After(s, Push(size, align));
      n.frames != [] && Top(n).cells != [] && Top(n).cells[|Top(n).cells| - 1] == Cell(n.sp, size, align) &&
      n.sp == AlignDown(s.sp - size, align) && n.sp % align == 0 && n.sp + size <= s.sp
  {
  }

  /** stack_push takes the highest place there is for the cell, and no more. */
  lemma PushIsHighest(s: CellStack, size: nat, align: nat, q: nat)
    requires Can(s, Push(size, align)) && q % align == 0 && q + size <= s.sp
    ensures q <= After(s, Push(size, align)).sp
  {
    AlignDownGreatest(s.sp - size, align, q);
  }

  lemma {:induction false} CellsDescend(f: Frame, floor: nat, i: nat, j: nat)
    requires GoodFrame(f, floor) && i < j < |f.cells|
    ensures f.cells[j].addr + f.cells[j].size <= f.cells[i].addr
    decreases j
  {
    assert CellFits(f, floor, j);
    if i < j - 1 {
      CellsDescend(f, floor, i, j - 1);
    }
  }

  lemma {:induction false} FramesDescend(s: CellStack, k: nat, l: nat)
    requires Good(s) && k < l < |s.frames|
    ensures s.sp <= s.frames[l].saved <= Floor(s, k)
    decreases l - k
  {
    if k + 1 < l {
      FramesDescend(s, k + 1, l);
      assert GoodFrame(s.frames[k + 1], Floor(s, k + 1));
    } else {
      SavedAboveSp(s, l);
    }
  }

  lemma {:induction false} SavedAboveSp(s: CellStack, k: nat)
    requires Good(s) && k < |s.frames|
    ensures s.sp <= Floor(s, k) <= s.frames[k].saved
    decreases |s.frames| - k
  {
    assert GoodFrame(s.frames[k], Floor(s, k));
    if k + 1 < |s.frames| {
      SavedAboveSp(s, k + 1);
    }
  }

  predicate Live(s: CellStack, k: nat, i: nat) {
    k < |s.frames| && i < |s.frames[k].cells|
  }

  function CellAt(s: CellStack, k: nat, i: nat): Cell
    requires Live(s, k, i)
  {
    s.frames[k].cells[i]
  }

  /** Any two live cells are apart, aligned and above the stack pointer, whatever
      contexts they belong to. */
  lemma LiveCells(s: CellStack, k: nat, i: nat, l: nat, j: nat)
    requires Good(s) && Live(s, k, i) && Live(s, l, j) && (k < l || (k == l && i < j))
    ensures var c, d := CellAt(s, k, i), CellAt(s, l, j);
      d.addr + d.size <= c.addr && s.sp <= d.addr &&
      c.align > 0 && c.addr % c.align == 0 && d.align > 0 && d.addr % d.align == 0
  {
    assert GoodFrame(s.frames[k], Floor(s, k)) && GoodFrame(s.frames[l], Floor(s, l));
    assert CellFits(s.frames[k], Floor(s, k), i) && CellFits(s.frames[l], Floor(s, l), j);
    SavedAboveSp(s, l);
    if k < l {
      FramesDescend(s, k, l);
    } else {
      CellsDescend(s.frames[k], Floor(s, k), i, j);
    }
  }

  /** Where stage_stack_args puts n spilled arguments. */
  function Staged(sp: nat, n: nat): nat
    requires 8 * n + 16 <= sp
  {
    if n == 0 then sp else AlignDown(sp - 8 * n, 16)
  }

  /** Without spilled arguments the stack stays, and otherwise they lie at the highest
      16-aligned place with room for them. */
  lemma StagedIsHighest(sp: nat, n: nat, q: nat)
    requires 8 * n + 16 <= sp && q % 16 == 0 && q + 8 * n <= sp
    ensures n == 0 ==> Staged(sp, n) == sp
    ensures n > 0 ==> q <= Staged(sp, n) && Staged(sp, n) % 16 == 0 && Staged(sp, n) + 8 * n <= sp
  {
    AlignDownGreatest(sp - 8 * n, 16, q);
  }

  /** Staged arguments lie strictly below every live cell. */
  lemma StagedBelowCells(s: CellStack, n: nat, k: nat, i: nat)
    requires Good(s) && Live(s, k, i) && 8 * n + 16 <= s.sp
    ensures Staged(s.sp, n) + 8 * n <= s.sp <= CellAt(s, k, i).addr
  {
    assert GoodFrame(s.frames[k], Floor(s, k));
    assert CellFits(s.frames[k], Floor(s, k), i);
    SavedAboveSp(s, k);
  }

  /** All of ops can be done from s, one after the other. */
  predicate CanAll(s: CellStack, ops: seq<Op>)
    decreases |ops|, 0
  {
    ops == [] || (CanAll(s, ops[..|ops| - 1]) && Can(Run(s, ops[..|ops| - 1]), ops[|ops| - 1]))
  }

  function Run(s: CellStack, ops: seq<Op>): CellStack
    requires CanAll(s, ops)
    decreases |ops|, 1
  {
    if ops == [] then s else After(Run(s, ops[..|ops| - 1]), ops[|ops| - 1])
  }

  lemma {:induction false} RunGood(sp: nat, ops: seq<Op>)
    requires CanAll(CellStack(sp, []), ops)
    ensures Good(Run(CellStack(sp, []), ops))
  {
    if ops != [] {
      RunGood(sp, ops[..|ops| - 1]);
      AfterGood(Run(CellStack(sp, []), ops[..|ops| - 1]), ops[|ops| - 1]);
    }
  }

  /** Every prefix leaves at least n contexts open: contexts nest. */
  predicate Nested(s: CellStack, ops: seq<Op>, n: nat)
    requires CanAll(s, ops)
    decreases |ops|
  {
    |Run(s, ops).frames| >= n && (ops == [] || Nested(s, ops[..|ops| - 1], n))
  }

  lemma {:induction false} OuterUntouched(s: CellStack, ops: seq<Op>, n: nat)
    requires CanAll(s, ops) && 1 <= n <= |s.frames| && Nested(s, ops, n)
    ensures var r := Run(s, ops);
      r.frames[..n - 1] == s.frames[..n - 1] && r.frames[n - 1].saved == s.frames[n - 1].saved
    decreases |ops|
  {
    if ops != [] {
      var m, r := Run(s, ops[..|ops| - 1]), Run(s, ops);
      OuterUntouched(s, ops[..|ops| - 1], n);
      assert r.frames[..n - 1] == m.frames[..n - 1];
    }
  }

  /** A context restores the stack it found: after any properly nested body of
      allocations and inner contexts, closing it gives back the same stack
      pointer and the same outer cells. */
  lemma ContextRestores(s: CellStack, body: seq<Op>)
    requires var inner := After(s, Open);
      CanAll(inner, body) && Nested(inner, body, |s.frames| + 1) &&
      |Run(inner, body).frames| == |s.frames| + 1
    ensures After(Run(After(s, Open), body), Close) == s
  {
    var inner := After(s, Open);
    OuterUntouched(inner, body, |s.frames| + 1);
    assert inner.frames[..|s.frames|] == s.frames;
  }

  // ---------------------------------------------------------------------
  // Arguments

  /** The first n words of args lie at base, base + 8, and so on. */
  ghost predicate Laid(m: Mem, base: nat, args: seq<Slot>, n: nat)
    requires n <= |args|
  {
    forall k | 0 <= k < n :: Load(m, base + 8 * k, 8) == args[k]
  }

  lemma LaidNext(m: Mem, base: nat, args: seq<Slot>, i: nat)
    requires i < |args| && Laid(m, base, args, i)
    ensures var m' := Store(m, base + 8 * i, args[i]);
      Laid(m', base, args, i + 1) && SameOutside(m, m', base + 8 * i, 8)
  {
    var m' := Store(m, base + 8 * i, args[i]);
    LoadStored(m, base + 8 * i, args[i]);
    forall k | 0 <= k < i + 1 ensures Load(m', base + 8 * k, 8) == args[k] {
      if k < i {
        LoadApart(m, m', base + 8 * i, 8, base + 8 * k, 8);
        assert Load(m, base + 8 * k, 8) == args[k];
      }
    }
  }

  const LFI_SLOTS: nat := 10

  /** Register contents and the overflow buffer of MarshalResult. */
  predicate Shaped(r: Regs) {
    |r.ints| == 8 && |r.floats| == 8 && |r.stack| == LFI_SLOTS
  }

  /** uint64_t val = 0; memcpy(&val, &arg, sizeof(arg)). */
  function Widened(vs: seq<Bytes>): (ws: seq<Bytes>)
    requires Narrow(vs)
    ensures |ws| == |vs| && Narrow(ws)
  {
    seq(|vs|, i requires 0 <= i < |vs| => Overlay(ZERO_SLOT, vs[i]))
  }

  /** The registers and buffer after marshal_args_lfi. */
  function Marshalled(arch: Arch, ts: seq<Type>, vs: seq<Bytes>, init: Regs): (r: Regs)
    requires Fits(ts, vs)
    ensures Shaped(init) ==> Shaped(r)
  {
    Filed(Places(arch, ts), Widened(vs), init, |ts|)
  }

  lemma MarshalledArg(arch: Arch, ts: seq<Type>, vs: seq<Bytes>, init: Regs, i: nat)
    requires Fits(ts, vs) && Shaped(init) && i < |ts|
    ensures Marshalled(arch, ts, vs, init).At(Locate(arch, ts, i)) == Overlay(ZERO_SLOT, vs[i])
  {
    var ps := Places(arch, ts);
    forall j, k | 0 <= j < k < |ts| ensures ps[j] != ps[k] {
      PlacesDistinct(arch, ts, k);
    }
    PlaceInRange(arch, ts, i);
    SpillBound(arch, ts, |ts|);
    FiledAt(ps, Widened(vs), init, |ts|, i);
  }

  /** The backend follows the same convention as the process backend: argument
      i, zero-extended, fills the place Locate gives it, and no other register
      changes. */
  lemma MarshalledAt(arch: Arch, ts: seq<Type>, vs: seq<Bytes>, init: Regs)
    requires Fits(ts, vs) && Shaped(init)
    ensures forall i | 0 <= i < |ts| ::
      Marshalled(arch, ts, vs, init).At(Locate(arch, ts, i)) == Overlay(ZERO_SLOT, vs[i])
    ensures forall p: Place | p !in Places(arch, ts) :: Marshalled(arch, ts, vs, init).At(p) == init.At(p)
  {
    var ps := Places(arch, ts);
    forall i | 0 <= i < |ts|
      ensures Marshalled(arch, ts, vs, init).At(ps[i]) == Overlay(ZERO_SLOT, vs[i])
    {
      MarshalledArg(arch, ts, vs, init, i);
    }
    forall p: Place | p !in ps ensures Marshalled(arch, ts, vs, init).At(p) == init.At(p) {
      FiledElsewhere(ps, Widened(vs), init, |ts|, p);
    }
  }

  /** marshal_arg: the next free register of the argument's class, or the next
      slot of the overflow buffer. */
  method MarshalArg(arch: Arch, float: bool, v: Bytes, r: Regs, intIdx: nat, floatIdx: nat, nStack: nat)
    returns (r': Regs, intIdx': nat, floatIdx': nat, nStack': nat)
    requires Shaped(r) && |v| <= 8 && r.Has(Counters(intIdx, floatIdx, nStack).Next(arch, float))
    ensures var p := Counters(intIdx, floatIdx, nStack).Next(arch, float);
      r' == r.Put(p, Overlay(ZERO_SLOT, v)) &&
      Counters(intIdx', floatIdx', nStack') == Counters(intIdx, floatIdx, nStack).After(p)
  {
    r', intIdx', floatIdx', nStack' := r, intIdx, floatIdx, nStack;
    var val := Overlay(ZERO_SLOT, v);
    if float {
      if floatIdx < FLOAT_REGS {
        r', floatIdx' := r.(floats := r.floats[floatIdx := val]), floatIdx + 1;
      } else {
        r', nStack' := r.(stack := r.stack[nStack := val]), nStack + 1;
      }
    } else {
      if intIdx < arch.IntRegs() {
        r', intIdx' := r.(ints := r.ints[intIdx := val]), intIdx + 1;
      } else {
        r', nStack' := r.(stack := r.stack[nStack := val]), nStack + 1;
      }
    }
  }

  method MarshalAll(arch: Arch, ts: seq<Type>, vs: seq<Bytes>, init: Regs) returns (r: Regs, nStack: nat)
    requires Shaped(init) && Fits(ts, vs)
    ensures r == Marshalled(arch, ts, vs, init) && nStack == Spills(arch, ts, |ts|) <= LFI_SLOTS
  {
    r := init;
    var intIdx, floatIdx := 0, 0;
    nStack := 0;
    for i := 0 to |ts|
      invariant Counters(intIdx, floatIdx, nStack) == CountersAt(arch, ts, i)
      invariant r == Filed(Places(arch, ts), Widened(vs), init, i)
    {
      LfiNext(arch, ts, i);
      FiledNext(Places(arch, ts), vs, init, i);
      r, intIdx, floatIdx, nStack := MarshalArg(arch, ts[i].IsFloat(), vs[i], r, intIdx, floatIdx, nStack);
    }
    CountersMeaning(arch, ts, |ts|);
    SpillBound(arch, ts, |ts|);
  }

  /** What a callee finds for argument i when it is entered. */
  function ArgAt(arch: Arch, ts: seq<Type>, r: Regs, sp: nat, m: Mem, i: nat): Bytes
    requires i < |ts|
  {
    match Locate(arch, ts, i)
    case Stack(k) => Load(m, sp + 8 * k, ts[i].Size())
    case p => r.At(p)[..ts[i].Size()]
  }

  /** What a call leaves: the argument registers, rax, the stack pointer, memory. */
  datatype Left = Left(regs: Regs, rax: Slot, sp: nat, mem: Mem)

  /** The thread's register context and the sandbox memory behind it. */
  class Context {
    var regs: Regs
    var rax: Slot
    var sp: nat
    var mem: Mem
    ghost var frames: seq<Frame>

    constructor (init: Regs, top: nat, image: Mem)
      requires Shaped(init)
      ensures Shaped(regs) && View() == CellStack(top, []) && mem == image
    {
      regs, rax, sp, mem, frames := init, ZERO_SLOT, top, image, [];
    }

    ghost function View(): CellStack
      reads this
    {
      CellStack(sp, frames)
    }

    /** stack_push, for a cell of the innermost context. */
    method StackPush(size: nat, align: nat) returns (p: nat)
      requires Good(View()) && Can(View(), Push(size, align))
      modifies this`sp, this`frames
      ensures Good(View()) && View() == After(old(View()), Push(size, align))
      ensures p % align == 0 && p + size <= old(sp) && Top(View()).cells[|Top(View()).cells| - 1] == Cell(p, size, align)
    {
      AfterGood(View(), Push(size, align));
      PushedCell(View(), size, align);
      frames := After(View(), Push(size, align)).frames;
      sp := AlignDown(sp - size, align);
      p := sp;
    }

    /** The CallContext constructor. */
    method OpenContext() returns (saved: nat)
      requires Good(View())
      modifies this`frames
      ensures Good(View()) && View() == After(old(View()), Open) && saved == sp
    {
      AfterGood(View(), Open);
      saved := sp;
      frames := frames + [Frame(sp, [])];
    }

    /** stack_restore in the CallContext destructor. */
    method CloseContext(saved: nat)
      requires Good(View()) && frames != [] && saved == Top(View()).saved
      modifies this`sp, this`frames
      ensures Good(View()) && View() == After(old(View()), Close)
    {
      AfterGood(View(), Close);
      sp := saved;
      frames := frames[..|frames| - 1];
    }

    /** marshal_args_lfi on this thread's registers. */
    method MarshalArgs(arch: Arch, ts: seq<Type>, vs: seq<Bytes>) returns (stackArgs: seq<Slot>, nStack: nat)
      requires Shaped(regs) && Fits(ts, vs)
      modifies this`regs
      ensures |stackArgs| == LFI_SLOTS && nStack == Spills(arch, ts, |ts|) <= LFI_SLOTS
      ensures var init := old(regs);
        regs == Marshalled(arch, ts, vs, init).(stack := init.stack) &&
        stackArgs == Marshalled(arch, ts, vs, init).stack
    {
      var r;
      r, nStack := MarshalAll(arch, ts, vs, regs);
      stackArgs := r.stack;
      regs := r.(stack := regs.stack);
    }

    /** stage_stack_args. */
    method StageStackArgs(stackArgs: seq<Slot>, nStack: nat)
      requires nStack <= |stackArgs| && 8 * nStack + 16 <= sp
      modifies this`sp, this`mem
      ensures sp == Staged(old(sp), nStack) && sp + 8 * nStack <= old(sp) && (nStack > 0 ==> sp % 16 == 0)
      ensures Laid(mem, sp, stackArgs, nStack)
      ensures SameOutside(old(mem), mem, sp, 8 * nStack)
    {
      if nStack == 0 {
        return;
      }
      var aligned := AlignDown(sp - 8 * nStack, 16);
      for i := 0 to nStack
        invariant Laid(mem, aligned, stackArgs, i)
        invariant SameOutside(old(mem), mem, aligned, 8 * i)
      {
        LaidNext(mem, aligned, stackArgs, i);
        mem := Store(mem, aligned + 8 * i, stackArgs[i]);
      }
      sp := aligned;
    }

    /** The end of call_ptr: the value in the return register of its class. */
    method TakeReturn(arch: Arch, ret: Type) returns (out: Bytes)
      requires Shaped(regs)
      ensures ReturnValue(ret, if arch == X86_64 then rax else regs.ints[0], regs.floats[0], out)
    {
      if ret == Void {
        return [];
      }
      if ret.IsFloat() {
        var raw := regs.floats[0];
        out := raw[..ret.Size()];
      } else {
        var raw := if arch.X86_64? then rax else regs.ints[0];
        out := raw[..ret.Size()];
      }
    }

    /** call_ptr around the trampoline, where any code runs. At entry it finds every
        argument and every live cell as the caller left it; afterwards the stack
        pointer is the caller's, and the result is what that code left in the
        return register. */
    method CallPtr(arch: Arch, ts: seq<Type>, vs: seq<Bytes>, ret: Type, callee: (Regs, nat, Mem) -> Left)
      returns (entryRegs: Regs, entrySp: nat, entryMem: Mem, out: Bytes)
      requires Good(View()) && Shaped(regs) && Fits(ts, vs) && 8 * LFI_SLOTS + 16 <= sp
      requires forall r, p, m :: Shaped(callee(r, p, m).regs)
      modifies this`regs, this`rax, this`sp, this`mem
      ensures var left := callee(entryRegs, entrySp, entryMem);
        && View() == old(View()) && regs == left.regs && rax == left.rax && mem == left.mem
        && Shaped(left.regs)
        && ReturnValue(ret, if arch == X86_64 then left.rax else left.regs.ints[0], left.regs.floats[0], out)
      ensures Spills(arch, ts, |ts|) <= LFI_SLOTS && entrySp == Staged(old(sp), Spills(arch, ts, |ts|))
      ensures forall i | 0 <= i < |ts| :: ArgAt(arch, ts, entryRegs, entrySp, entryMem, i) == vs[i]
      ensures forall k, i | Live(View(), k, i) ::
        var c := CellAt(View(), k, i); Load(entryMem, c.addr, c.size) == Load(old(mem), c.addr, c.size)
    {
      var stackArgs, nStack := MarshalArgs(arch, ts, vs);
      var savedSp := sp;
      StageStackArgs(stackArgs, nStack);
      entryRegs, entrySp, entryMem := regs, sp, mem;
      forall i | 0 <= i < |ts| ensures ArgAt(arch, ts, entryRegs, entrySp, entryMem, i) == vs[i] {
        Delivered(arch, ts, vs, old(regs), entrySp, entryMem, i);
      }
      CellsKept(old(View()), old(mem), mem, nStack);
      var left := callee(regs, sp, mem);
      regs, rax, sp, mem := left.regs, left.rax, left.sp, left.mem;
      sp := savedSp;
      out := TakeReturn(arch, ret);
    }
  }

  lemma CellsKept(s: CellStack, m: Mem, m': Mem, n: nat)
    requires Good(s) && 8 * n + 16 <= s.sp && SameOutside(m, m', Staged(s.sp, n), 8 * n)
    ensures forall k, i | Live(s, k, i) ::
      var c := CellAt(s, k, i); Load(m', c.addr, c.size) == Load(m, c.addr, c.size)
  {
    forall k, i | Live(s, k, i) ensures var c := CellAt(s, k, i); Load(m', c.addr, c.size) == Load(m, c.addr, c.size) {
      StagedBelowCells(s, n, k, i);
      var c := CellAt(s, k, i);
      LoadApart(m, m', Staged(s.sp, n), 8 * n, c.addr, c.size);
    }
  }

  lemma FiledNext(ps: seq<Place>, vs: seq<Bytes>, init: Regs, i: nat)
    requires i < |ps| == |vs| && Narrow(vs)
    ensures Filed(ps, Widened(vs), init, i + 1) == Filed(ps, Widened(vs), init, i).Put(ps[i], Overlay(ZERO_SLOT, vs[i]))
  {
    var r, w := Filed(ps, Widened(vs), init, i), Widened(vs)[i];
    assert Overlay(r.At(ps[i]), w) == w;
  }

  lemma LfiNext(arch: Arch, ts: seq<Type>, i: nat)
    requires i < |ts| <= MAX_ARGS
    ensures CountersAt(arch, ts, i).Next(arch, ts[i].IsFloat()) == Places(arch, ts)[i]
    ensures forall r: Regs | Shaped(r) :: r.Has(Places(arch, ts)[i])
  {
    NextIsPlace(arch, ts, i);
    PlaceInRange(arch, ts, i);
    SpillBound(arch, ts, |ts|);
  }

  lemma Delivered(arch: Arch, ts: seq<Type>, vs: seq<Bytes>, init: Regs, sp: nat, m: Mem, i: nat)
    requires Fits(ts, vs) && Shaped(init) && i < |ts| && Spills(arch, ts, |ts|) <= LFI_SLOTS
    requires Laid(m, sp, Marshalled(arch, ts, vs, init).stack, Spills(arch, ts, |ts|))
    ensures ArgAt(arch, ts, Marshalled(arch, ts, vs, init).(stack := init.stack), sp, m, i) == vs[i]
  {
    var r, p := Marshalled(arch, ts, vs, init), Locate(arch, ts, i);
    MarshalledArg(arch, ts, vs, init, i);
    PlaceInRange(arch, ts, i);
    if p.Stack? {
      assert Load(m, sp + 8 * p.k, 8) == r.stack[p.k];
      LoadFront(m, sp + 8 * p.k, ts[i].Size(), 8);
    }
  }
}
