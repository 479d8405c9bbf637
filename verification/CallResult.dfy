/** Results on their way back: from the machine's return registers to the channel,
    and from the channel to the caller of a closure stub. */
module CallResult {
  import opened CallFrame
  import opened Direct
  import opened Marshal
  import opened Types

  datatype Class = ClassInt | ClassFloat | ClassDouble | ClassVoid

  /** dyfn_classify. */
  function Classify(t: Type): Class {
    match t
    case Float => ClassFloat
    case Double => ClassDouble
    case Void => ClassVoid
    case _ => ClassInt
  }

  function SlotAt(m: Memory, a: int): Slot {
    BytesOf(Read(m, a), 8)
  }

  // ---------------------------------------------------------------------
  // Out of a call

  /** dyfn_store_result, from the DyfnCallResult at result. */
  method StoreResult(m: Memory, result: int, ret: Type) returns (out: Bytes)
    ensures ReturnValue(ret, SlotAt(m, result), SlotAt(m, result + 8), out)
  {
    var cls, size := Classify(ret), ret.Size();
    out := [];
    if cls == ClassFloat || cls == ClassDouble {
      out := SlotAt(m, result + 8)[..size];
    } else if cls != ClassVoid {
      out := SlotAt(m, result)[..size];
    }
  }

  /** dyfn_call and dyfn_store_result: what a call hands back is the value the
      function left in its return register, as calling it directly gives. */
  method CallAndStore(c: X86, callee: X86 -> X86, ret: Type) returns (at: X86, out: Bytes)
    requires |c.ints| == 6 && c.rsp % 16 == 8
    requires var b := SpillBytes(|ImageAt(c.mem, c.ints[0]).stack|);
             c.rsp >= 24 + b && (ImageEnd(c.mem, c.ints[0]) <= c.rsp - 24 - b || c.rsp <= c.ints[0])
    requires c.ints[1] + 16 <= c.rsp - 24 || c.rsp + 8 <= c.ints[1]
    requires forall m :: ReturnsTo(m, callee(m), c.rsp - 24, c.rsp + 8)
    ensures |at.ints| == 6 && at.ints == ImageAt(c.mem, c.ints[0]).ints[..6] && at.xmm == ImageAt(c.mem, c.ints[0]).floats
    ensures var d := callee(at);
      |d.xmm| == 8 && ReturnValue(ret, BytesOf(d.rax, 8), BytesOf(d.xmm[0], 8), out) &&
      out == ReturnBytes(ret, BytesOf(d.rax, 8), BytesOf(d.xmm[0], 8))
  {
    var site, e, to;
    at, site, e, to := DyfnCall(c, callee);
    out := StoreResult(e.mem, c.ints[1], ret);
    ReturnBytesMeaning(ret, BytesOf(callee(at).rax, 8), BytesOf(callee(at).xmm[0], 8), out);
  }

  method CallAndStore64(c: A64, callee: A64 -> A64, ret: Type) returns (at: A64, out: Bytes)
    requires |c.ints| == 8 && c.sp % 16 == 0
    requires var b := SpillBytes(|ImageAt(c.mem, c.ints[0]).stack|);
             c.sp >= 32 + b && (ImageEnd(c.mem, c.ints[0]) <= c.sp - 32 - b || c.sp <= c.ints[0])
    requires c.ints[1] + 16 <= c.sp - 32 || c.sp <= c.ints[1]
    requires forall m :: ReturnsTo64(m, callee(m), c.sp - 32, c.sp)
    ensures at.ints == ImageAt(c.mem, c.ints[0]).ints && at.d == ImageAt(c.mem, c.ints[0]).floats
    ensures var d := callee(at);
      |d.d| == 8 && |d.ints| == 8 && ReturnValue(ret, BytesOf(d.ints[0], 8), BytesOf(d.d[0], 8), out) &&
      out == ReturnBytes(ret, BytesOf(d.ints[0], 8), BytesOf(d.d[0], 8))
  {
    var site, e;
    at, site, e := DyfnCall64(c, callee);
    assert site.ints == ImageAt(c.mem, c.ints[0]).ints[..8];
    out := StoreResult(e.mem, c.ints[1], ret);
    ReturnBytesMeaning(ret, BytesOf(callee(at).ints[0], 8), BytesOf(callee(at).d[0], 8), out);
  }

  // ---------------------------------------------------------------------
  // Out of a callback

  /** The end of dyfn_closure_dispatch: the host's result goes into the
      DyfnClosureResult at result. */
  method StoreClosureResult(m: Memory, result: int, ret: Type, storage: Bytes) returns (m': Memory)
    requires |storage| >= ret.Size()
    ensures ReturnValue(ret, SlotAt(m', result), SlotAt(m', result + 8), storage[..ret.Size()])
    ensures SameWordsOutside(m, m', result, result + 16)
  {
    var cls, x := Classify(ret), storage[..ret.Size()];
    m' := m;
    if cls == ClassFloat || cls == ClassDouble {
      var slot := Overlay(SlotAt(m, result + 8), x);
      WordRoundTrip(slot);
      m' := m[result + 8 := WordOf(slot)];
    } else if cls != ClassVoid {
      var slot := Overlay(SlotAt(m, result), x);
      WordRoundTrip(slot);
      m' := m[result := WordOf(slot)];
    }
  }

  /** A stub returns the host's result in the register its caller expects it in;
      c is the machine on entry of the stub, d as dyfn_closure_dispatch has it when
      the host's answer is there. */
  method StubReturns(c: X86, d: X86, ret: Type, storage: Bytes) returns (e: X86)
    requires |d.xmm| == 8 && c.rsp >= FRAME_SIZE + 8 && d.rsp == c.rsp - FRAME_SIZE - 8
    requires Read(d.mem, c.rsp) == Read(c.mem, c.rsp) && |storage| >= ret.Size()
    ensures e.rsp == c.rsp + 8 && |e.xmm| == 8
    ensures ReturnValue(ret, BytesOf(e.rax, 8), BytesOf(e.xmm[0], 8), storage[..ret.Size()])
  {
    var m := StoreClosureResult(d.mem, d.rsp + SIZEOF_SAVED, ret, storage);
    var to;
    e, to := ClosureExit(c, d.(mem := m));
  }

  method StubReturns64(c: A64, d: A64, ret: Type, storage: Bytes) returns (e: A64)
    requires |d.ints| == 8 && |d.d| == 8 && c.sp >= FRAME_SIZE + 16 && d.sp == c.sp - FRAME_SIZE - 16
    requires Read(d.mem, d.sp) == c.x29 && Read(d.mem, d.sp + 8) == c.x30 && |storage| >= ret.Size()
    ensures e.sp == c.sp && |e.ints| == |e.d| == 8
    ensures ReturnValue(ret, BytesOf(e.ints[0], 8), BytesOf(e.d[0], 8), storage[..ret.Size()])
  {
    var m := StoreClosureResult(d.mem, d.sp + 16 + SIZEOF_SAVED, ret, storage);
    e := ClosureExit64(c, d.(mem := m));
  }
}
