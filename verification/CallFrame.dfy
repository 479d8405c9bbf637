/** The assembly at both ends of a foreign call, instruction by instruction:
    dyfn_call and dyfn_closure_common on x86-64 and AArch64. */
module CallFrame {
  import opened Types
  import opened Marshal

  /** Word-addressed memory: every access here is to an 8-byte aligned word. */
  type Memory = map<int, nat>

  function Read(m: Memory, a: int): nat {
    if a in m then m[a] else 0
  }

  predicate SameWords(m: Memory, m': Memory, lo: int, hi: int) {
    forall a | lo <= a < hi :: Read(m', a) == Read(m, a)
  }

  // Offsets into struct DyfnCallArgs, DyfnCallResult, DyfnClosureSavedRegs and
  // DyfnClosureResult (dyfn_offsets.h).
  const CALL_FLOAT_REGS := 64
  const CALL_STACK_ARGS := 136
  const CALL_STACK_COUNT := 168
  const CALL_FUNC := 176
  const SAVED_FLOAT_REGS := 64
  const SAVED_STACK_ARGS := 128
  const SAVED_STUB_INDEX := 160
  const SIZEOF_SAVED := 168
  const SIZEOF_CALL := 192
  const FRAME_SIZE := 192

  /** movl / ldr w: the low half of a word. */
  function Low32(w: nat): nat {
    w % 0x1_0000_0000
  }

  function WordsAt(m: Memory, a: int, n: nat): (ws: seq<nat>)
    ensures |ws| == n && forall i | 0 <= i < n :: ws[i] == Read(m, a + 8 * i)
  {
    seq(n, i requires 0 <= i < n => Read(m, a + 8 * i))
  }

  /** A DyfnCallArgs in memory. The assembly trusts stack_count. */
  datatype Image = Image(ints: seq<nat>, floats: seq<nat>, stack: seq<nat>, func: nat)

  function ImageAt(m: Memory, a: int): Image {
    Image(WordsAt(m, a, 8), WordsAt(m, a + CALL_FLOAT_REGS, 8),
          WordsAt(m, a + CALL_STACK_ARGS, Low32(Read(m, a + CALL_STACK_COUNT))),
          Read(m, a + CALL_FUNC))
  }

  /** Bytes the assembly may read of a DyfnCallArgs at a. */
  function ImageEnd(m: Memory, a: int): int {
    var spill := a + CALL_STACK_ARGS + 8 * Low32(Read(m, a + CALL_STACK_COUNT));
    if spill > a + SIZEOF_CALL then spill else a + SIZEOF_CALL
  }

  /** The machine at the call instruction, before any return address. */
  datatype Site = Site(sp: int, mem: Memory, ints: seq<nat>, floats: seq<nat>, target: nat)

  /** What sections 3.2.2 and 3.2.3 of the psABI (6.8.2 of AAPCS64) ask of a
      call: aligned stack, registers loaded, spilled argument i at SP + 8i. */
  predicate Delivers(arch: Arch, img: Image, site: Site) {
    site.sp % 16 == 0 && site.target == img.func &&
    |img.ints| == 8 && site.ints == img.ints[..arch.IntRegs()] && site.floats == img.floats &&
    StackHolds(site.mem, site.sp, img.stack)
  }

  predicate StackHolds(m: Memory, sp: int, stack: seq<nat>) {
    forall i | 0 <= i < |stack| :: Read(m, sp + 8 * i) == stack[i]
  }

  /** Stack bytes dyfn_call uses for n spilled words, rounded to 16. */
  function SpillBytes(n: nat): (b: nat)
    ensures b % 16 == 0 && 8 * n <= b <= 8 * n + 8
  {
    8 * (n + n % 2)
  }

  /** The words at [to, to + 8n) of m' are those at [from, from + 8n) of m. */
  predicate Copied(m: Memory, from: int, m': Memory, to: int, lo: int, hi: int) {
    forall a | lo <= a < hi && (a - to) % 8 == 0 :: Read(m', a) == Read(m, a - to + from)
  }

  lemma NextWordDown(a: int, sp: int, to: int)
    requires (a - to) % 8 == 0 && (sp - to) % 8 == 0 && sp - 8 <= a < sp
    ensures a == sp - 8
  {
    var p, q := (sp - to) / 8, (a - to) / 8;
    assert sp - to == 8 * p && a - to == 8 * q;
  }

  /** Pushing the next word down extends the copied area by that word. */
  lemma CopiedGrows(m: Memory, from: int, m': Memory, to: int, sp: int, hi: int, w: nat)
    requires Copied(m, from, m', to, sp, hi) && (sp - to) % 8 == 0 && w == Read(m, sp - 8 - to + from)
    ensures Copied(m, from, m'[sp - 8 := w], to, sp - 8, hi)
  {
    var m'' := m'[sp - 8 := w];
    forall a {:trigger Read(m'', a)} | sp - 8 <= a < hi && (a - to) % 8 == 0
      ensures Read(m'', a) == Read(m, a - to + from)
    {
      if a < sp {
        NextWordDown(a, sp, to);
      } else {
        assert Read(m', a) == Read(m, a - to + from);
      }
    }
  }

  lemma CopiedWords(m: Memory, from: int, m': Memory, to: int, n: nat)
    requires Copied(m, from, m', to, to, to + 8 * n)
    ensures forall i | 0 <= i < n :: Read(m', to + 8 * i) == WordsAt(m, from, n)[i]
  {
    forall i | 0 <= i < n ensures Read(m', to + 8 * i) == WordsAt(m, from, n)[i] {
      assert (to + 8 * i - to) % 8 == 0;
    }
  }

  ghost predicate SameWordsOutside(m: Memory, m': Memory, lo: int, hi: int) {
    forall a | a < lo || a >= hi :: Read(m', a) == Read(m, a)
  }

  lemma ImageFields(m: Memory, a: int)
    ensures |ImageAt(m, a).ints| == |ImageAt(m, a).floats| == 8
    ensures ImageAt(m, a).ints[..6] ==
            [Read(m, a), Read(m, a + 8), Read(m, a + 16), Read(m, a + 24), Read(m, a + 32), Read(m, a + 40)]
  {
  }

  /** x86-64 machine state; ints holds rdi, rsi, rdx, rcx, r8, r9. */
  datatype X86 = X86(mem: Memory, rsp: nat, rbp: nat, rbx: nat, r12: nat,
                     ints: seq<nat>, xmm: seq<nat>, rax: nat)
  {
    function Push(w: nat): X86
      requires rsp >= 8
    {
      this.(rsp := rsp - 8, mem := mem[rsp - 8 := w])
    }

    function Pop(): (nat, X86) {
      (Read(mem, rsp), this.(rsp := rsp + 8))
    }
  }

  /** The .Lpush loop: the last spilled word first, down to the first. */
  method PushSpilled(c: X86, rcx: nat, top: nat) returns (c': X86)
    requires rcx < top && (top - rcx) % 8 == 0
    requires c.rsp >= top - rcx && (top <= c.rsp - (top - rcx) || c.rsp <= rcx)
    ensures c' == c.(rsp := c.rsp - (top - rcx), mem := c'.mem)
    ensures Copied(c.mem, rcx, c'.mem, c'.rsp, c'.rsp, c.rsp)
    ensures SameWordsOutside(c.mem, c'.mem, c'.rsp, c.rsp)
  {
    c' := c;
    var rdx := top;
    ghost var bottom := c.rsp - (top - rcx);
    while true
      invariant rcx < rdx <= top && (rdx - rcx) % 8 == 0
      invariant c' == c.(rsp := c.rsp - (top - rdx), mem := c'.mem)
      invariant Copied(c.mem, rcx, c'.mem, bottom, c'.rsp, c.rsp)
      invariant SameWordsOutside(c.mem, c'.mem, c'.rsp, c.rsp)
      decreases rdx
    {
      rdx := rdx - 8;
      CopiedGrows(c.mem, rcx, c'.mem, bottom, c'.rsp, c.rsp, Read(c'.mem, rdx));
      c' := c'.Push(Read(c'.mem, rdx));
      if rdx == rcx { break; }
    }
  }

  /** Saves the callee-saved registers and takes over the two arguments. */
  method SaveFrame(c: X86) returns (c': X86)
    requires |c.ints| == 6 && c.rsp >= 24 && (ImageEnd(c.mem, c.ints[0]) <= c.rsp - 24 || c.rsp <= c.ints[0])
    ensures c' == c.(rsp := c.rsp - 24, rbp := c.rsp - 8, rbx := c.ints[0], r12 := c.ints[1], mem := c'.mem)
    ensures FrameSaved(c, c'.mem) && SameWordsOutside(c.mem, c'.mem, c'.rsp, c.rsp)
  {
    c' := c.Push(c.rbp);
    c' := c'.(rbp := c'.rsp);
    c' := c'.Push(c'.rbx);
    c' := c'.Push(c'.r12);
    c' := c'.(rbx := c'.ints[0]);
    c' := c'.(r12 := c'.ints[1]);
  }

  predicate FrameSaved(c: X86, m: Memory) {
    Read(m, c.rsp - 8) == c.rbp && Read(m, c.rsp - 16) == c.rbx && Read(m, c.rsp - 24) == c.r12
  }

  /** Pads to an even count and pushes the spilled words, if there are any. */
  method Spill(c: X86) returns (c': X86)
    requires var b := SpillBytes(|ImageAt(c.mem, c.rbx).stack|);
             c.rsp >= b && (ImageEnd(c.mem, c.rbx) <= c.rsp - b || c.rsp <= c.rbx)
    ensures c' == c.(rsp := c.rsp - SpillBytes(|ImageAt(c.mem, c.rbx).stack|), mem := c'.mem, rax := c'.rax)
    ensures StackHolds(c'.mem, c'.rsp, ImageAt(c.mem, c.rbx).stack)
    ensures SameWordsOutside(c.mem, c'.mem, c'.rsp, c.rsp)
  {
    var eax := Low32(Read(c.mem, c.rbx + CALL_STACK_COUNT));
    c' := c.(rax := eax);
    if eax != 0 {
      if eax % 2 == 1 {
        c' := c'.(rsp := c'.rsp - 8);
      }
      var rcx := c'.rbx + CALL_STACK_ARGS;
      c' := PushSpilled(c', rcx, rcx + 8 * eax);
      CopiedWords(c.mem, rcx, c'.mem, c'.rsp, eax);
    }
  }

  /** dyfn_call up to the call instruction. */
  method Prologue(c: X86) returns (c': X86, site: Site)
    requires |c.ints| == 6 && c.rsp % 16 == 8
    requires var b := SpillBytes(|ImageAt(c.mem, c.ints[0]).stack|);
             c.rsp >= 24 + b && (ImageEnd(c.mem, c.ints[0]) <= c.rsp - 24 - b || c.rsp <= c.ints[0])
    ensures Delivers(X86_64, ImageAt(c.mem, c.ints[0]), site)
    ensures c'.rsp == site.sp == c.rsp - 24 - SpillBytes(|ImageAt(c.mem, c.ints[0]).stack|)
    ensures c'.mem == site.mem && c'.rbp == c.rsp - 8 && c'.r12 == c.ints[1]
    ensures site.ints == c'.ints && site.floats == c'.xmm
    ensures FrameSaved(c, c'.mem) && SameWordsOutside(c.mem, c'.mem, c'.rsp, c.rsp)
  {
    ghost var img := ImageAt(c.mem, c.ints[0]);
    var s := EnterFrame(c);
    c' := Spill(s);
    DropAligned(c.rsp - 24, SpillBytes(|img.stack|));
    ImageKept(s.mem, c'.mem, s.rbx, c'.rsp, s.rsp);
    FrameKept(c, s.mem, c'.mem, c'.rsp);
    c', site := LoadRegisters(c', img);
  }

  /** What is pushed below the saved registers leaves them and the caller's memory. */
  lemma FrameKept(c: X86, m: Memory, m': Memory, sp: int)
    requires FrameSaved(c, m) && SameWordsOutside(c.mem, m, c.rsp - 24, c.rsp)
    requires SameWordsOutside(m, m', sp, c.rsp - 24) && sp <= c.rsp - 24
    ensures FrameSaved(c, m') && SameWordsOutside(c.mem, m', sp, c.rsp)
  {
  }

  /** Saves the caller's frame and loads the floating-point registers. */
  method EnterFrame(c: X86) returns (s: X86)
    requires |c.ints| == 6 && c.rsp >= 24
    requires ImageEnd(c.mem, c.ints[0]) <= c.rsp - 24 || c.rsp <= c.ints[0]
    ensures var img := ImageAt(c.mem, c.ints[0]);
      s == c.(rsp := c.rsp - 24, rbp := c.rsp - 8, rbx := c.ints[0], r12 := c.ints[1], mem := s.mem, xmm := img.floats) &&
      ImageAt(s.mem, s.rbx) == img && ImageEnd(s.mem, s.rbx) == ImageEnd(c.mem, c.ints[0])
    ensures FrameSaved(c, s.mem) && SameWordsOutside(c.mem, s.mem, s.rsp, c.rsp)
  {
    s := SaveFrame(c);
    ImageKept(c.mem, s.mem, s.rbx, s.rsp, c.rsp);
    s := s.(xmm := WordsAt(s.mem, s.rbx + CALL_FLOAT_REGS, 8));
  }

  lemma DropAligned(sp: int, b: int)
    requires sp % 16 == 0 && b % 16 == 0
    ensures (sp - b) % 16 == 0
  {
  }

  /** Loads the integer registers and the target: the machine is at the call. */
  method LoadRegisters(c: X86, ghost img: Image) returns (c': X86, site: Site)
    requires img == ImageAt(c.mem, c.rbx) && c.xmm == img.floats
    requires c.rsp % 16 == 0 && StackHolds(c.mem, c.rsp, img.stack)
    ensures c' == c.(ints := c'.ints) && site.mem == c.mem && site.sp == c.rsp && Delivers(X86_64, img, site)
    ensures site.ints == c'.ints && site.floats == c'.xmm
  {
    var a, m := c.rbx, c.mem;
    c' := c.(ints := [Read(m, a), Read(m, a + 8), Read(m, a + 16), Read(m, a + 24), Read(m, a + 32), Read(m, a + 40)]);
    site := Site(c'.rsp, c'.mem, c'.ints, c'.xmm, Read(m, a + CALL_FUNC));
    ImageFields(m, a);
  }

  lemma WordsKept(m: Memory, m': Memory, a: int, n: nat, lo: int, hi: int)
    requires SameWordsOutside(m, m', lo, hi) && (a + 8 * n <= lo || hi <= a)
    ensures WordsAt(m', a, n) == WordsAt(m, a, n)
  {
    forall i | 0 <= i < n ensures WordsAt(m', a, n)[i] == WordsAt(m, a, n)[i] {
      assert Read(m', a + 8 * i) == Read(m, a + 8 * i);
    }
  }

  /** Writing the stack leaves a DyfnCallArgs outside it as it was. */
  lemma ImageKept(m: Memory, m': Memory, a: int, lo: int, hi: int)
    requires SameWordsOutside(m, m', lo, hi) && (ImageEnd(m, a) <= lo || hi <= a)
    ensures ImageAt(m', a) == ImageAt(m, a)
    ensures ImageEnd(m', a) == ImageEnd(m, a)
  {
    WordsKept(m, m', a, 8, lo, hi);
    WordsKept(m, m', a + CALL_FLOAT_REGS, 8, lo, hi);
    WordsKept(m, m', a + CALL_STACK_ARGS, Low32(Read(m, a + CALL_STACK_COUNT)), lo, hi);
  }

  /** A called function's return, as far as the convention constrains it: stack
      pointer and callee-saved registers kept, and the caller's frame [lo, hi). */
  predicate ReturnsTo(c: X86, d: X86, lo: int, hi: int) {
    d.rsp == c.rsp && d.rbp == c.rbp && d.rbx == c.rbx && d.r12 == c.r12 &&
    SameWords(c.mem, d.mem, lo, hi) && |d.xmm| == 8
  }

  /** dyfn_call after the call instruction: c is the state on entry, d the state
      the called function returned in. */
  method Epilogue(c: X86, d: X86) returns (e: X86, ret: nat)
    requires |c.ints| == 6 && |d.xmm| == 8 && d.rbp == c.rsp - 8 && d.r12 == c.ints[1] && c.rsp >= 24
    requires FrameSaved(c, d.mem)
    requires c.ints[1] + 16 <= c.rsp - 24 || c.rsp + 8 <= c.ints[1]
    ensures e.rsp == c.rsp + 8 && e.rbp == c.rbp && e.rbx == c.rbx && e.r12 == c.r12
    ensures ret == Read(d.mem, c.rsp)
    ensures Read(e.mem, c.ints[1]) == d.rax && Read(e.mem, c.ints[1] + 8) == d.xmm[0]
    ensures SameWordsOutside(d.mem, e.mem, c.ints[1], c.ints[1] + 16)
  {
    e := d.(mem := d.mem[d.r12 := d.rax]);
    e := e.(mem := e.mem[e.r12 + 8 := e.xmm[0]]);
    e := e.(rsp := e.rbp - 16);
    var w;
    w, e := e.Pop().0, e.Pop().1;
    e := e.(r12 := w);
    w, e := e.Pop().0, e.Pop().1;
    e := e.(rbx := w);
    w, e := e.Pop().0, e.Pop().1;
    e := e.(rbp := w);
    ret, e := e.Pop().0, e.Pop().1;
  }

  /** dyfn_call as a whole, around any function that keeps to the convention: at
      is the state in which the function is entered and callee(at) the one in
      which it returns. */
  method DyfnCall(c: X86, callee: X86 -> X86) returns (at: X86, site: Site, e: X86, ret: nat)
    requires |c.ints| == 6 && c.rsp % 16 == 8
    requires var b := SpillBytes(|ImageAt(c.mem, c.ints[0]).stack|);
             c.rsp >= 24 + b && (ImageEnd(c.mem, c.ints[0]) <= c.rsp - 24 - b || c.rsp <= c.ints[0])
    requires c.ints[1] + 16 <= c.rsp - 24 || c.rsp + 8 <= c.ints[1]
    requires forall m :: ReturnsTo(m, callee(m), c.rsp - 24, c.rsp + 8)
    ensures Delivers(X86_64, ImageAt(c.mem, c.ints[0]), site) && SameWordsOutside(c.mem, site.mem, site.sp, c.rsp)
    ensures at.rsp == site.sp && at.mem == site.mem && at.ints == site.ints && at.xmm == site.floats
    ensures e.rsp == c.rsp + 8 && e.rbp == c.rbp && e.rbx == c.rbx && e.r12 == c.r12 && ret == Read(c.mem, c.rsp)
    ensures var d := callee(at);
      |d.xmm| == 8 && Read(e.mem, c.ints[1]) == d.rax && Read(e.mem, c.ints[1] + 8) == d.xmm[0] &&
      SameWordsOutside(d.mem, e.mem, c.ints[1], c.ints[1] + 16)
  {
    at, site := Prologue(c);
    assert ReturnsTo(at, callee(at), c.rsp - 24, c.rsp + 8);
    e, ret := Epilogue(c, callee(at));
  }

  // ---------------------------------------------------------------------
  // Closure entry

  function StoreWords(m: Memory, a: int, ws: seq<nat>): Memory {
    if ws == [] then m
    else StoreWords(m, a, ws[..|ws| - 1])[a + 8 * (|ws| - 1) := ws[|ws| - 1]]
  }

  lemma {:induction false} StoredWords(m: Memory, a: int, ws: seq<nat>)
    ensures WordsAt(StoreWords(m, a, ws), a, |ws|) == ws
    ensures SameWordsOutside(m, StoreWords(m, a, ws), a, a + 8 * |ws|)
  {
    if ws != [] {
      var n := |ws| - 1;
      StoredWords(m, a, ws[..n]);
      var m0, m1 := StoreWords(m, a, ws[..n]), StoreWords(m, a, ws);
      forall i | 0 <= i < n ensures Read(m1, a + 8 * i) == ws[i] {
        assert Read(m0, a + 8 * i) == WordsAt(m0, a, n)[i];
      }
    }
  }

  /** A DyfnClosureSavedRegs in memory. */
  datatype Saved = Saved(ints: seq<nat>, floats: seq<nat>, stack: seq<nat>, stub: nat)

  function SavedAt(m: Memory, a: int): Saved {
    Saved(WordsAt(m, a, 8), WordsAt(m, a + SAVED_FLOAT_REGS, 8), WordsAt(m, a + SAVED_STACK_ARGS, STACK_SLOTS),
          Low32(Read(m, a + SAVED_STUB_INDEX)))
  }

  /** The closure handler captured the registers and the four words from argBase. */
  predicate Captures(arch: Arch, ints: seq<nat>, floats: seq<nat>, m: Memory, argBase: int, stub: nat, saved: Saved)
    requires |saved.ints| == 8
  {
    saved.ints[..arch.IntRegs()] == ints && saved.floats == floats && saved.stub == stub &&
    saved.stack == WordsAt(m, argBase, STACK_SLOTS)
  }

  /** The stores of both closure handlers: integer registers, spilled words,
      floating-point registers and stub index into the save area at a. */
  method SaveClosure(m: Memory, a: int, ints: seq<nat>, stack: seq<nat>, floats: seq<nat>, stub: nat)
    returns (m': Memory)
    requires |ints| <= 8 && |stack| == STACK_SLOTS && |floats| == 8 && stub < 0x1_0000_0000
    ensures var saved := SavedAt(m', a);
            saved.ints[..|ints|] == ints && saved.floats == floats && saved.stack == stack && saved.stub == stub
    ensures SameWordsOutside(m, m', a, a + SIZEOF_SAVED)
  {
    var m1 := StoreWords(m, a, ints);
    StoredWords(m, a, ints);
    var m2 := StoreWords(m1, a + SAVED_STACK_ARGS, stack);
    StoredWords(m1, a + SAVED_STACK_ARGS, stack);
    var m3 := StoreWords(m2, a + SAVED_FLOAT_REGS, floats);
    StoredWords(m2, a + SAVED_FLOAT_REGS, floats);
    m' := m3[a + SAVED_STUB_INDEX := stub];
    WordsKept(m1, m2, a, |ints|, a + SAVED_STACK_ARGS, a + SAVED_STACK_ARGS + 32);
    WordsKept(m2, m3, a, |ints|, a + SAVED_FLOAT_REGS, a + SAVED_FLOAT_REGS + 64);
    WordsKept(m2, m3, a + SAVED_STACK_ARGS, STACK_SLOTS, a + SAVED_FLOAT_REGS, a + SAVED_FLOAT_REGS + 64);
    var s := a + SAVED_STUB_INDEX;
    WordsKept(m3, m', a, |ints|, s, s + 8);
    WordsKept(m3, m', a + SAVED_STACK_ARGS, STACK_SLOTS, s, s + 8);
    WordsKept(m3, m', a + SAVED_FLOAT_REGS, 8, s, s + 8);
    assert SavedAt(m', a).ints[..|ints|] == WordsAt(m', a, |ints|);
  }

  /** dyfn_closure_common up to the call of dyfn_closure_dispatch. */
  method ClosureEntry(c: X86, stub: nat) returns (c': X86)
    requires |c.ints| == 6 && |c.xmm| == 8 && c.rsp % 16 == 8 && c.rsp >= FRAME_SIZE + 8 && stub < 0x1_0000_0000
    ensures c'.rsp == c.rsp - FRAME_SIZE - 8 && c'.rsp % 16 == 0
    ensures Captures(X86_64, c.ints, c.xmm, c.mem, c.rsp + 8, stub, SavedAt(c'.mem, c'.rsp))
    ensures SameWordsOutside(c.mem, c'.mem, c'.rsp, c.rsp)
  {
    c' := c.(rsp := c.rsp - (FRAME_SIZE + 8));
    var callerStack := c'.rsp + FRAME_SIZE + 8 + 8;
    var m := SaveClosure(c'.mem, c'.rsp, c'.ints, WordsAt(c'.mem, callerStack, STACK_SLOTS), c'.xmm, stub);
    c' := c'.(mem := m);
  }

  /** dyfn_closure_common after dyfn_closure_dispatch returned in state d: the
      result words go to rax and xmm0, and control goes back to the caller. */
  method ClosureExit(c: X86, d: X86) returns (e: X86, ret: nat)
    requires |d.xmm| == 8 && c.rsp >= FRAME_SIZE + 8 && d.rsp == c.rsp - FRAME_SIZE - 8
    requires Read(d.mem, c.rsp) == Read(c.mem, c.rsp)
    ensures e.rsp == c.rsp + 8 && ret == Read(c.mem, c.rsp) && e.mem == d.mem
    ensures |e.xmm| == 8 && e.rax == Read(d.mem, d.rsp + SIZEOF_SAVED) && e.xmm[0] == Read(d.mem, d.rsp + SIZEOF_SAVED + 8)
  {
    e := d.(rax := Read(d.mem, d.rsp + SIZEOF_SAVED));
    e := e.(xmm := e.xmm[0 := Read(e.mem, e.rsp + SIZEOF_SAVED + 8)]);
    e := e.(rsp := e.rsp + (FRAME_SIZE + 8));
    ret, e := e.Pop().0, e.Pop().1;
  }

  // ---------------------------------------------------------------------
  // AArch64

  /** AArch64 machine state; ints holds x0 to x7 and d holds d0 to d7. */
  datatype A64 = A64(mem: Memory, sp: nat, x29: nat, x30: nat, x19: nat, x20: nat,
                     ints: seq<nat>, d: seq<nat>)

  function StorePair(m: Memory, a: int, w: nat, w': nat): Memory {
    m[a := w][a + 8 := w']
  }

  predicate FrameSaved64(c: A64, m: Memory) {
    Read(m, c.sp - 32) == c.x29 && Read(m, c.sp - 24) == c.x30 &&
    Read(m, c.sp - 16) == c.x19 && Read(m, c.sp - 8) == c.x20
  }

  /** The .Lcopy_stack loop: from the first spilled word up. */
  method CopyStack(m: Memory, sp: nat, args: nat, n: nat) returns (m': Memory)
    requires n > 0 && (args + 8 * n <= sp || sp + 8 * n <= args)
    ensures StackHolds(m', sp, WordsAt(m, args, n)) && SameWordsOutside(m, m', sp, sp + 8 * n)
  {
    m' := m;
    var w10, x11, x12 := n, args, sp;
    while true
      invariant 0 < w10 <= n && x11 == args + 8 * (n - w10) && x12 == sp + 8 * (n - w10)
      invariant forall i | 0 <= i < n - w10 :: Read(m', sp + 8 * i) == WordsAt(m, args, n)[i]
      invariant SameWordsOutside(m, m', sp, x12)
      decreases w10
    {
      m' := m'[x12 := Read(m', x11)];
      x11, x12 := x11 + 8, x12 + 8;
      w10 := w10 - 1;
      if w10 == 0 { break; }
    }
  }

  /** Rounds the spill area up to an even count and fills it. */
  method Spill64(c: A64) returns (c': A64)
    requires var b := SpillBytes(|ImageAt(c.mem, c.x19).stack|);
             c.sp >= b && (ImageEnd(c.mem, c.x19) <= c.sp - b || c.sp <= c.x19)
    ensures c' == c.(sp := c.sp - SpillBytes(|ImageAt(c.mem, c.x19).stack|), mem := c'.mem)
    ensures StackHolds(c'.mem, c'.sp, ImageAt(c.mem, c.x19).stack) && SameWordsOutside(c.mem, c'.mem, c'.sp, c.sp)
  {
    var w10 := Low32(Read(c.mem, c.x19 + CALL_STACK_COUNT));
    c' := c;
    if w10 != 0 {
      var w11 := (w10 + 1) / 2 * 2;
      c' := c'.(sp := c'.sp - w11 * 8);
      var m := CopyStack(c'.mem, c'.sp, c'.x19 + CALL_STACK_ARGS, w10);
      c' := c'.(mem := m);
    }
  }

  /** dyfn_call up to the blr. */
  method Prologue64(c: A64) returns (c': A64, site: Site)
    requires |c.ints| == 8 && c.sp % 16 == 0
    requires var b := SpillBytes(|ImageAt(c.mem, c.ints[0]).stack|);
             c.sp >= 32 + b && (ImageEnd(c.mem, c.ints[0]) <= c.sp - 32 - b || c.sp <= c.ints[0])
    ensures Delivers(AArch64, ImageAt(c.mem, c.ints[0]), site)
    ensures c'.sp == site.sp == c.sp - 32 - SpillBytes(|ImageAt(c.mem, c.ints[0]).stack|)
    ensures c'.mem == site.mem && c'.x29 == c.sp - 32 && c'.x20 == c.ints[1]
    ensures site.ints == c'.ints && site.floats == c'.d
    ensures FrameSaved64(c, c'.mem) && SameWordsOutside(c.mem, c'.mem, c'.sp, c.sp)
  {
    ghost var img := ImageAt(c.mem, c.ints[0]);
    var s := EnterFrame64(c);
    c' := Spill64(s);
    DropAligned(c.sp - 32, SpillBytes(|img.stack|));
    ImageKept(s.mem, c'.mem, s.x19, c'.sp, s.sp);
    FrameKept64(c, s.mem, c'.mem, c'.sp);
    c', site := LoadRegisters64(c', img);
  }

  lemma FrameKept64(c: A64, m: Memory, m': Memory, sp: int)
    requires FrameSaved64(c, m) && SameWordsOutside(c.mem, m, c.sp - 32, c.sp)
    requires SameWordsOutside(m, m', sp, c.sp - 32) && sp <= c.sp - 32
    ensures FrameSaved64(c, m') && SameWordsOutside(c.mem, m', sp, c.sp)
  {
  }

  /** Saves the caller's frame and loads the floating-point registers. */
  method EnterFrame64(c: A64) returns (s: A64)
    requires |c.ints| == 8 && c.sp >= 32
    requires ImageEnd(c.mem, c.ints[0]) <= c.sp - 32 || c.sp <= c.ints[0]
    ensures var img := ImageAt(c.mem, c.ints[0]);
      s == c.(sp := c.sp - 32, x29 := c.sp - 32, x19 := c.ints[0], x20 := c.ints[1], mem := s.mem, d := img.floats) &&
      ImageAt(s.mem, s.x19) == img && ImageEnd(s.mem, s.x19) == ImageEnd(c.mem, c.ints[0])
    ensures FrameSaved64(c, s.mem) && SameWordsOutside(c.mem, s.mem, s.sp, c.sp)
  {
    s := SaveFrame64(c);
    ImageKept(c.mem, s.mem, s.x19, s.sp, c.sp);
    s := s.(d := WordsAt(s.mem, s.x19 + CALL_FLOAT_REGS, 8));
  }

  method SaveFrame64(c: A64) returns (c': A64)
    requires |c.ints| == 8 && c.sp >= 32
    ensures c' == c.(sp := c.sp - 32, x29 := c.sp - 32, x19 := c.ints[0], x20 := c.ints[1], mem := c'.mem)
    ensures FrameSaved64(c, c'.mem) && SameWordsOutside(c.mem, c'.mem, c'.sp, c.sp)
  {
    c' := c.(sp := c.sp - 32, mem := StorePair(c.mem, c.sp - 32, c.x29, c.x30));
    c' := c'.(x29 := c'.sp);
    c' := c'.(mem := StorePair(c'.mem, c'.sp + 16, c'.x19, c'.x20));
    c' := c'.(x19 := c'.ints[0], x20 := c'.ints[1]);
  }

  method LoadRegisters64(c: A64, ghost img: Image) returns (c': A64, site: Site)
    requires img == ImageAt(c.mem, c.x19) && c.d == img.floats
    requires c.sp % 16 == 0 && StackHolds(c.mem, c.sp, img.stack)
    ensures c' == c.(ints := c'.ints) && site.mem == c.mem && site.sp == c.sp && Delivers(AArch64, img, site)
    ensures site.ints == c'.ints && site.floats == c'.d
  {
    c' := c.(ints := WordsAt(c.mem, c.x19, 8));
    site := Site(c'.sp, c'.mem, c'.ints, c'.d, Read(c'.mem, c'.x19 + CALL_FUNC));
    assert site.ints == img.ints[..8];
  }

  predicate ReturnsTo64(c: A64, d: A64, lo: int, hi: int) {
    d.sp == c.sp && d.x29 == c.x29 && d.x19 == c.x19 && d.x20 == c.x20 &&
    SameWords(c.mem, d.mem, lo, hi) && |d.d| == 8 && |d.ints| == 8
  }

  /** dyfn_call after the blr. */
  method Epilogue64(c: A64, d: A64) returns (e: A64)
    requires |c.ints| == 8 && |d.d| == 8 && |d.ints| == 8 && c.sp >= 32
    requires d.x29 == c.sp - 32 && d.x20 == c.ints[1] && FrameSaved64(c, d.mem)
    requires c.ints[1] + 16 <= c.sp - 32 || c.sp <= c.ints[1]
    ensures e.sp == c.sp && e.x29 == c.x29 && e.x30 == c.x30 && e.x19 == c.x19 && e.x20 == c.x20
    ensures Read(e.mem, c.ints[1]) == d.ints[0] && Read(e.mem, c.ints[1] + 8) == d.d[0]
    ensures SameWordsOutside(d.mem, e.mem, c.ints[1], c.ints[1] + 16)
  {
    e := d.(mem := d.mem[d.x20 := d.ints[0]]);
    e := e.(mem := e.mem[e.x20 + 8 := e.d[0]]);
    e := e.(sp := e.x29);
    e := e.(x19 := Read(e.mem, e.sp + 16), x20 := Read(e.mem, e.sp + 24));
    e := e.(x29 := Read(e.mem, e.sp), x30 := Read(e.mem, e.sp + 8), sp := e.sp + 32);
  }

  /** dyfn_call as a whole; the return address is x30. */
  method DyfnCall64(c: A64, callee: A64 -> A64) returns (at: A64, site: Site, e: A64)
    requires |c.ints| == 8 && c.sp % 16 == 0
    requires var b := SpillBytes(|ImageAt(c.mem, c.ints[0]).stack|);
             c.sp >= 32 + b && (ImageEnd(c.mem, c.ints[0]) <= c.sp - 32 - b || c.sp <= c.ints[0])
    requires c.ints[1] + 16 <= c.sp - 32 || c.sp <= c.ints[1]
    requires forall m :: ReturnsTo64(m, callee(m), c.sp - 32, c.sp)
    ensures Delivers(AArch64, ImageAt(c.mem, c.ints[0]), site) && SameWordsOutside(c.mem, site.mem, site.sp, c.sp)
    ensures at.sp == site.sp && at.mem == site.mem && at.ints == site.ints && at.d == site.floats
    ensures e.sp == c.sp && e.x29 == c.x29 && e.x30 == c.x30 && e.x19 == c.x19 && e.x20 == c.x20
    ensures var d := callee(at);
      |d.d| == 8 && |d.ints| == 8 && Read(e.mem, c.ints[1]) == d.ints[0] && Read(e.mem, c.ints[1] + 8) == d.d[0] &&
      SameWordsOutside(d.mem, e.mem, c.ints[1], c.ints[1] + 16)
  {
    at, site := Prologue64(c);
    assert ReturnsTo64(at, callee(at), c.sp - 32, c.sp);
    e := Epilogue64(c, callee(at));
  }

  /** dyfn_closure_common up to the call of dyfn_closure_dispatch. */
  method ClosureEntry64(c: A64, stub: nat) returns (c': A64)
    requires |c.ints| == 8 && |c.d| == 8 && c.sp % 16 == 0 && c.sp >= FRAME_SIZE + 16 && stub < 0x1_0000_0000
    ensures c'.sp == c.sp - FRAME_SIZE - 16 && c'.sp % 16 == 0
    ensures Captures(AArch64, c.ints, c.d, c.mem, c.sp, stub, SavedAt(c'.mem, c'.sp + 16))
    ensures SameWordsOutside(c.mem, c'.mem, c'.sp, c.sp) && Read(c'.mem, c'.sp) == c.x29 && Read(c'.mem, c'.sp + 8) == c.x30
  {
    var total := 16 + FRAME_SIZE;
    c' := c.(sp := c.sp - total, mem := StorePair(c.mem, c.sp - total, c.x29, c.x30));
    c' := c'.(x29 := c'.sp);
    var callerStack := c'.sp + total;
    WordsKept(c.mem, c'.mem, callerStack, STACK_SLOTS, c'.sp, c'.sp + 16);
    var m := SaveClosure(c'.mem, c'.sp + 16, c'.ints, WordsAt(c'.mem, callerStack, STACK_SLOTS), c'.d, stub);
    c' := c'.(mem := m);
  }

  /** dyfn_closure_common after dyfn_closure_dispatch returned in state d, which
      keeps the saved x29 and x30: the result words go to x0 and d0, and the
      caller's stack and frame registers are back. */
  method ClosureExit64(c: A64, d: A64) returns (e: A64)
    requires |d.ints| == 8 && |d.d| == 8 && c.sp >= FRAME_SIZE + 16 && d.sp == c.sp - FRAME_SIZE - 16
    requires Read(d.mem, d.sp) == c.x29 && Read(d.mem, d.sp + 8) == c.x30
    ensures e.sp == c.sp && e.x29 == c.x29 && e.x30 == c.x30 && e.mem == d.mem
    ensures |e.ints| == |e.d| == 8 && e.ints[0] == Read(d.mem, d.sp + 16 + SIZEOF_SAVED)
    ensures e.d[0] == Read(d.mem, d.sp + 16 + SIZEOF_SAVED + 8)
  {
    e := d.(ints := d.ints[0 := Read(d.mem, d.sp + 16 + SIZEOF_SAVED)]);
    e := e.(d := e.d[0 := Read(e.mem, e.sp + 16 + SIZEOF_SAVED + 8)]);
    e := e.(x29 := Read(e.mem, e.sp), x30 := Read(e.mem, e.sp + 8));
    e := e.(sp := e.sp + (16 + FRAME_SIZE));
  }

  /** An argument is spilled only when an earlier one has each register of its
      class that the call loads. */
  lemma SpilledLast(arch: Arch, ts: seq<Type>, i: nat, k: nat, img: Image, site: Site)
    requires i < |ts| && Locate(arch, ts, i).Stack? && Delivers(arch, img, site) && |img.floats| == 8
    ensures ts[i] in {Float, Double} && k < |site.floats| ==> exists j :: 0 <= j < i && Locate(arch, ts, j) == FloatReg(k)
    ensures ts[i] !in {Float, Double} && k < |site.ints| ==> exists j :: 0 <= j < i && Locate(arch, ts, j) == IntReg(k)
  {
    ConventionExact(arch, ts, Places(arch, ts));
    assert FirstFree(arch, ts[i], Places(arch, ts), i);
    var float := ts[i] == Float || ts[i] == Double;
    var q := if float then FloatReg(k) else IntReg(k);
    if PassesIn(arch, float, q) {
      assert Places(arch, ts)[i].Stack? && q in Places(arch, ts)[..i];
      var before := Places(arch, ts)[..i];
      var j :| 0 <= j < |before| && before[j] == q;
      assert Locate(arch, ts, j) == q;
    }
  }

  // ---------------------------------------------------------------------
  // From dyfn_prep_call to dyfn_closure_dispatch

  function Words(ss: seq<Slot>): (ws: seq<nat>)
    ensures |ws| == |ss| && forall i | 0 <= i < |ss| :: ws[i] == WordOf(ss[i])
  {
    if ss == [] then [] else Words(ss[..|ss| - 1]) + [WordOf(ss[|ss| - 1])]
  }

  function Slots(ws: seq<nat>): (ss: seq<Slot>)
    ensures |ss| == |ws| && forall i | 0 <= i < |ws| :: ss[i] == BytesOf(ws[i], 8)
  {
    if ws == [] then [] else Slots(ws[..|ws| - 1]) + [BytesOf(ws[|ws| - 1], 8)]
  }

  /** The DyfnCallArgs image dyfn_prep_call leaves for these arguments. */
  function ImageOf(r: Regs, n: nat, func: nat): Image
    requires r.Shaped() && n <= STACK_SLOTS
  {
    Image(Words(r.ints), Words(r.floats), Words(r.stack[..n]), func)
  }

  function SavedRegs(saved: Saved): (r: Regs)
    requires |saved.ints| == |saved.floats| == 8 && |saved.stack| == STACK_SLOTS
    ensures r.Shaped()
  {
    Regs(Slots(saved.ints), Slots(saved.floats), Slots(saved.stack))
  }

  lemma SlotBack(ws: seq<nat>, i: nat, slot: Slot)
    requires i < |ws| && ws[i] == WordOf(slot)
    ensures Slots(ws)[i] == slot
  {
    WordRoundTrip(slot);
  }

  lemma SlotsBack(ws: seq<nat>, ss: seq<Slot>, n: nat)
    requires n <= |ss| && n <= |ws| && ws[..n] == Words(ss)[..n]
    ensures Slots(ws)[..n] == ss[..n]
  {
    forall i | 0 <= i < n ensures Slots(ws)[i] == ss[i] {
      assert ws[i] == ws[..n][i] == Words(ss)[..n][i];
      SlotBack(ws, i, ss[i]);
    }
  }

  lemma StackBack(m: Memory, m': Memory, sp: int, stack: seq<Slot>, n: nat)
    requires n <= |stack| == STACK_SLOTS && StackHolds(m, sp, Words(stack[..n]))
    requires SameWords(m, m', sp, sp + 8 * STACK_SLOTS)
    ensures Slots(WordsAt(m', sp, STACK_SLOTS))[..n] == stack[..n]
  {
    var ws := WordsAt(m', sp, STACK_SLOTS);
    forall i | 0 <= i < n ensures Slots(ws)[i] == stack[i] {
      assert Read(m', sp + 8 * i) == Read(m, sp + 8 * i) == Words(stack[..n])[i];
      SlotBack(ws, i, stack[i]);
    }
  }

  /** Calling a closure stub through dyfn_call: whatever dyfn_prep_call filed,
      dyfn_closure_dispatch reads back, argument by argument. argBase is where
      the stub finds its first stack argument. */
  lemma StubSeesArguments(arch: Arch, ts: seq<Type>, vs: seq<Bytes>, func: nat, site: Site,
                          m: Memory, stub: nat, saved: Saved)
    requires Fits(ts, vs) && Spills(arch, ts, |ts|) <= STACK_SLOTS
    requires Delivers(arch, ImageOf(Placed(arch, ts, vs, ZeroRegs()), Spills(arch, ts, |ts|), func), site)
    requires SameWords(site.mem, m, site.sp, site.sp + 8 * STACK_SLOTS)
    requires |saved.ints| == |saved.floats| == 8 && |saved.stack| == STACK_SLOTS
    requires Captures(arch, site.ints, site.floats, m, site.sp, stub, saved)
    ensures ReadRegs(arch, ts, SavedRegs(saved)) == vs
  {
    var r, r', n := Placed(arch, ts, vs, ZeroRegs()), SavedRegs(saved), Spills(arch, ts, |ts|);
    SlotsBack(saved.ints, r.ints, arch.IntRegs());
    SlotsBack(saved.floats, r.floats, 8);
    StackBack(site.mem, m, site.sp, r.stack, n);
    SameArgsFrom(arch, ts, r, r');
    RegisterRoundTrip(arch, ts, vs, ZeroRegs(), r');
  }

  lemma SameArgsFrom(arch: Arch, ts: seq<Type>, r: Regs, r': Regs)
    requires r.Shaped() && r'.Shaped() && Spills(arch, ts, |ts|) <= STACK_SLOTS
    requires r.ints[..arch.IntRegs()] == r'.ints[..arch.IntRegs()] && r.floats[..8] == r'.floats[..8]
    requires r.stack[..Spills(arch, ts, |ts|)] == r'.stack[..Spills(arch, ts, |ts|)]
    ensures SameArgs(arch, ts, r, r')
  {
    var n := Spills(arch, ts, |ts|);
    assert r.floats == r.floats[..8] && r'.floats == r'.floats[..8];
    forall k | 0 <= k < n ensures r.stack[k] == r'.stack[k] {
      assert r.stack[..n][k] == r'.stack[..n][k];
    }
  }
}
