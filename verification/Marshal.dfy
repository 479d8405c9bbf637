/** The foreign-call marshaller: argument bytes to registers and spill slots,
    and back. */
module Marshal {
  import opened Types

  datatype Arch = X86_64 | AArch64
  {
    function IntRegs(): nat {
      match this
      case X86_64 => 6
      case AArch64 => 8
    }
  }

  const FLOAT_REGS: nat := 8
  const STACK_SLOTS: nat := 4
  const MAX_ARGS: nat := 10
  const ARG_STORAGE: nat := 1024

  // ---------------------------------------------------------------------
  // Where the calling convention puts argument i, by counting alone
  // (System V AMD64 psABI section 3.2.3, AAPCS64 section 6.8.2).

  datatype Place = IntReg(k: nat) | FloatReg(k: nat) | Stack(k: nat)

  /** Floating-point arguments among the first n. */
  function Floats(ts: seq<Type>, n: nat): nat
    requires n <= |ts|
  {
    if n == 0 then 0 else Floats(ts, n - 1) + if ts[n - 1].IsFloat() then 1 else 0
  }

  function Ints(ts: seq<Type>, n: nat): nat
    requires n <= |ts|
  {
    if n == 0 then 0 else Ints(ts, n - 1) + if ts[n - 1].IsFloat() then 0 else 1
  }

  /** Argument i found its register file already full. */
  predicate Spilled(arch: Arch, ts: seq<Type>, i: nat)
    requires i < |ts|
  {
    if ts[i].IsFloat() then Floats(ts, i) >= FLOAT_REGS else Ints(ts, i) >= arch.IntRegs()
  }

  function Spills(arch: Arch, ts: seq<Type>, n: nat): nat
    requires n <= |ts|
  {
    if n == 0 then 0 else Spills(arch, ts, n - 1) + if Spilled(arch, ts, n - 1) then 1 else 0
  }

  function Locate(arch: Arch, ts: seq<Type>, i: nat): Place
    requires i < |ts|
  {
    if Spilled(arch, ts, i) then Stack(Spills(arch, ts, i))
    else if ts[i].IsFloat() then FloatReg(Floats(ts, i))
    else IntReg(Ints(ts, i))
  }

  function Excess(n: nat, cap: nat): nat {
    if n > cap then n - cap else 0
  }

  function Min(a: nat, b: nat): nat {
    if a < b then a else b
  }

  lemma {:induction false} CountsPartition(ts: seq<Type>, n: nat)
    requires n <= |ts|
    ensures Floats(ts, n) + Ints(ts, n) == n
  {
    if n > 0 {
      CountsPartition(ts, n - 1);
    }
  }

  lemma {:induction false} SpillsClosedForm(arch: Arch, ts: seq<Type>, n: nat)
    requires n <= |ts|
    ensures Spills(arch, ts, n)
         == Excess(Ints(ts, n), arch.IntRegs()) + Excess(Floats(ts, n), FLOAT_REGS)
  {
    if n > 0 {
      SpillsClosedForm(arch, ts, n - 1);
    }
  }

  lemma SpillBound(arch: Arch, ts: seq<Type>, n: nat)
    requires n <= |ts| && n <= MAX_ARGS
    ensures Spills(arch, ts, n) <= STACK_SLOTS
  {
    SpillsClosedForm(arch, ts, n);
    CountsPartition(ts, n);
  }

  lemma {:induction false} PointerCounts(ts: seq<Type>, n: nat)
    requires n <= |ts| && forall i | 0 <= i < |ts| :: ts[i] == Pointer
    ensures Ints(ts, n) == n
  {
    if n > 0 {
      PointerCounts(ts, n - 1);
    }
  }

  /** The four slots are exactly enough: on x86-64, ten is the largest argument
      count for which every mix of types stays inside the spill area. */
  lemma SpillBoundExact(n: nat)
    ensures (forall ts: seq<Type> | |ts| == n :: Spills(X86_64, ts, n) <= STACK_SLOTS)
       <==> n <= MAX_ARGS
  {
    if n <= MAX_ARGS {
      forall ts: seq<Type> | |ts| == n ensures Spills(X86_64, ts, n) <= STACK_SLOTS {
        SpillBound(X86_64, ts, n);
      }
    } else {
      var ts := seq(n, _ => Pointer);
      PointerCounts(ts, n);
      SpillsClosedForm(X86_64, ts, n);
      assert |ts| == n && Spills(X86_64, ts, n) > STACK_SLOTS;
    }
  }

  lemma {:induction false} CountsMonotone(arch: Arch, ts: seq<Type>, i: nat, n: nat)
    requires i <= n <= |ts|
    ensures Ints(ts, i) <= Ints(ts, n) && Floats(ts, i) <= Floats(ts, n)
    ensures Spills(arch, ts, i) <= Spills(arch, ts, n)
    decreases n
  {
    if i < n {
      CountsMonotone(arch, ts, i, n - 1);
    }
  }

  /** No earlier argument shares argument j's register or slot. */
  lemma PlacesDistinct(arch: Arch, ts: seq<Type>, j: nat)
    requires j < |ts|
    ensures forall i | 0 <= i < j :: Locate(arch, ts, i) != Locate(arch, ts, j)
  {
    forall i | 0 <= i < j ensures Locate(arch, ts, i) != Locate(arch, ts, j) {
      CountsMonotone(arch, ts, i + 1, j);
    }
  }

  lemma PlaceInRange(arch: Arch, ts: seq<Type>, i: nat)
    requires i < |ts|
    ensures match Locate(arch, ts, i)
            case IntReg(k) => k < arch.IntRegs()
            case FloatReg(k) => k < FLOAT_REGS
            case Stack(k) => k < Spills(arch, ts, |ts|)
  {
    CountsMonotone(arch, ts, i + 1, |ts|);
  }

  function Places(arch: Arch, ts: seq<Type>): (ps: seq<Place>)
    ensures |ps| == |ts|
  {
    seq(|ts|, i requires 0 <= i < |ts| => Locate(arch, ts, i))
  }

  // ---------------------------------------------------------------------
  // The same convention without counting

  /** A register the convention passes arguments of the class in. */
  predicate PassesIn(arch: Arch, float: bool, p: Place) {
    match p
    case IntReg(k) => !float && (k < 6 || (arch == AArch64 && k < 8))
    case FloatReg(k) => float && k < 8
    case Stack(_) => false
  }

  /** The place before p in its register file, or on the stack. */
  predicate Precedes(q: Place, p: Place) {
    match p
    case IntReg(k) => q.IntReg? && q.k < k
    case FloatReg(k) => q.FloatReg? && q.k < k
    case Stack(k) => q.Stack? && q.k < k
  }

  /** Argument i is in a free register of its class, or on the stack if there is
      none, and in the first such place. */
  ghost predicate FirstFree(arch: Arch, t: Type, ps: seq<Place>, i: nat)
    requires i < |ps|
  {
    var float := t == Float || t == Double;
    ps[i] !in ps[..i] && (forall q | Precedes(q, ps[i]) :: q in ps[..i]) &&
    if ps[i].Stack? then forall q | PassesIn(arch, float, q) :: q in ps[..i] else PassesIn(arch, float, ps[i])
  }

  ghost predicate Follows(arch: Arch, ts: seq<Type>, ps: seq<Place>) {
    |ps| == |ts| && forall i | 0 <= i < |ts| :: FirstFree(arch, ts[i], ps, i)
  }

  lemma {:induction false} IntTaken(arch: Arch, ts: seq<Type>, i: nat, k: nat) returns (j: nat)
    requires i <= |ts| && k < Ints(ts, i) && k < arch.IntRegs()
    ensures j < i && Locate(arch, ts, j) == IntReg(k)
  {
    if k < Ints(ts, i - 1) { j := IntTaken(arch, ts, i - 1, k); } else { j := i - 1; }
  }

  lemma {:induction false} FloatTaken(arch: Arch, ts: seq<Type>, i: nat, k: nat) returns (j: nat)
    requires i <= |ts| && k < Floats(ts, i) && k < FLOAT_REGS
    ensures j < i && Locate(arch, ts, j) == FloatReg(k)
  {
    if k < Floats(ts, i - 1) { j := FloatTaken(arch, ts, i - 1, k); } else { j := i - 1; }
  }

  lemma {:induction false} StackTaken(arch: Arch, ts: seq<Type>, i: nat, k: nat) returns (j: nat)
    requires i <= |ts| && k < Spills(arch, ts, i)
    ensures j < i && Locate(arch, ts, j) == Stack(k)
  {
    if k < Spills(arch, ts, i - 1) { j := StackTaken(arch, ts, i - 1, k); } else { j := i - 1; }
  }

  lemma PlaceIsFirstFree(arch: Arch, ts: seq<Type>, ps: seq<Place>, i: nat)
    requires i < |ts| == |ps| && forall j | 0 <= j < |ts| :: ps[j] == Locate(arch, ts, j)
    ensures FirstFree(arch, ts[i], ps, i)
  {
    PlacesDistinct(arch, ts, i);
    PlaceInRange(arch, ts, i);
    forall q | Precedes(q, ps[i]) || (ps[i].Stack? && PassesIn(arch, ts[i] == Float || ts[i] == Double, q))
      ensures q in ps[..i]
    {
      var j;
      match q {
        case IntReg(k) => j := IntTaken(arch, ts, i, k);
        case FloatReg(k) => j := FloatTaken(arch, ts, i, k);
        case Stack(k) => j := StackTaken(arch, ts, i, k);
      }
      assert ps[..i][j] == q;
    }
  }

  lemma {:induction false} FollowsOnce(arch: Arch, ts: seq<Type>, ps: seq<Place>, qs: seq<Place>, n: nat)
    requires Follows(arch, ts, ps) && Follows(arch, ts, qs) && n <= |ts|
    ensures ps[..n] == qs[..n]
  {
    if n > 0 {
      FollowsOnce(arch, ts, ps, qs, n - 1);
      assert FirstFree(arch, ts[n - 1], ps, n - 1) && FirstFree(arch, ts[n - 1], qs, n - 1);
      assert ps[..n] == ps[..n - 1] + [ps[n - 1]] && qs[..n] == qs[..n - 1] + [qs[n - 1]];
    }
  }

  /** Counting finds the one placement in which every argument has the first free
      register of its class, or the next stack slot when none is free. */
  lemma ConventionExact(arch: Arch, ts: seq<Type>, ps: seq<Place>)
    ensures Follows(arch, ts, ps) <==> ps == Places(arch, ts)
  {
    forall i | 0 <= i < |ts| ensures FirstFree(arch, ts[i], Places(arch, ts), i) {
      PlaceIsFirstFree(arch, ts, Places(arch, ts), i);
    }
    if Follows(arch, ts, ps) {
      FollowsOnce(arch, ts, ps, Places(arch, ts), |ts|);
      assert ps[..|ts|] == ps && Places(arch, ts)[..|ts|] == Places(arch, ts);
    }
  }

  // ---------------------------------------------------------------------
  // Register files

  /** The register files and spill area, as DyfnCallArgs and
      DyfnClosureSavedRegs both lay them out. */
  datatype Regs = Regs(ints: seq<Slot>, floats: seq<Slot>, stack: seq<Slot>)
  {
    predicate Shaped() {
      |ints| == 8 && |floats| == 8 && |stack| == STACK_SLOTS
    }

    predicate Has(p: Place) {
      match p
      case IntReg(k) => k < |ints|
      case FloatReg(k) => k < |floats|
      case Stack(k) => k < |stack|
    }

    function At(p: Place): Slot {
      match p
      case IntReg(k) => if k < |ints| then ints[k] else ZERO_SLOT
      case FloatReg(k) => if k < |floats| then floats[k] else ZERO_SLOT
      case Stack(k) => if k < |stack| then stack[k] else ZERO_SLOT
    }

    function Put(p: Place, s: Slot): (r: Regs)
      ensures |r.ints| == |ints| && |r.floats| == |floats| && |r.stack| == |stack|
    {
      match p
      case IntReg(k) => if k < |ints| then this.(ints := ints[k := s]) else this
      case FloatReg(k) => if k < |floats| then this.(floats := floats[k := s]) else this
      case Stack(k) => if k < |stack| then this.(stack := stack[k := s]) else this
    }
  }

  /** Argument values whose widths match their types. */
  predicate Typed(ts: seq<Type>, vs: seq<Bytes>) {
    |ts| == |vs| && forall i | 0 <= i < |ts| :: |vs[i]| == ts[i].Size()
  }

  predicate Fits(ts: seq<Type>, vs: seq<Bytes>) {
    |ts| <= MAX_ARGS && Typed(ts, vs)
  }

  lemma PlaceFits(arch: Arch, ts: seq<Type>, i: nat)
    requires i < |ts| <= MAX_ARGS
    ensures forall r: Regs | r.Shaped() :: r.Has(Locate(arch, ts, i))
  {
    PlaceInRange(arch, ts, i);
    SpillBound(arch, ts, |ts|);
  }

  predicate Narrow(vs: seq<Bytes>) {
    forall i | 0 <= i < |vs| :: |vs[i]| <= 8
  }

  /** Register image init with the first n values filed at their places. */
  function Filed(ps: seq<Place>, vs: seq<Bytes>, init: Regs, n: nat): (r: Regs)
    requires n <= |ps| == |vs| && Narrow(vs)
    ensures |r.ints| == |init.ints| && |r.floats| == |init.floats| && |r.stack| == |init.stack|
  {
    if n == 0 then init
    else
      var r := Filed(ps, vs, init, n - 1);
      r.Put(ps[n - 1], Overlay(r.At(ps[n - 1]), vs[n - 1]))
  }

  lemma PutAt(r: Regs, p: Place, s: Slot, q: Place)
    requires r.Has(p)
    ensures r.Put(p, s).At(q) == if q == p then s else r.At(q)
  {
  }

  lemma {:induction false} FiledElsewhere(ps: seq<Place>, vs: seq<Bytes>, init: Regs, n: nat, p: Place)
    requires n <= |ps| == |vs| && Narrow(vs)
    requires forall i | 0 <= i < n :: ps[i] != p
    ensures Filed(ps, vs, init, n).At(p) == init.At(p)
  {
    if n > 0 {
      FiledElsewhere(ps, vs, init, n - 1, p);
    }
  }

  lemma {:induction false} FiledAt(ps: seq<Place>, vs: seq<Bytes>, init: Regs, n: nat, i: nat)
    requires i < n <= |ps| == |vs| && Narrow(vs)
    requires init.Has(ps[i])
    requires forall j, k | 0 <= j < k < n :: ps[j] != ps[k]
    ensures Filed(ps, vs, init, n).At(ps[i]) == Overlay(init.At(ps[i]), vs[i])
    decreases n
  {
    var r := Filed(ps, vs, init, n - 1);
    if i < n - 1 {
      FiledAt(ps, vs, init, n - 1, i);
    } else {
      FiledElsewhere(ps, vs, init, i, ps[i]);
      PutAt(r, ps[i], Overlay(r.At(ps[i]), vs[i]), ps[i]);
    }
  }

  /** The register image of a whole argument list. */
  function Placed(arch: Arch, ts: seq<Type>, vs: seq<Bytes>, init: Regs): (r: Regs)
    requires Fits(ts, vs)
    ensures init.Shaped() ==> r.Shaped()
  {
    Filed(Places(arch, ts), vs, init, |ts|)
  }

  /** Each argument ends up in the low bytes of the place the convention
      assigns it; every other register and slot is left alone. */
  lemma PlacedAt(arch: Arch, ts: seq<Type>, vs: seq<Bytes>, init: Regs)
    requires Fits(ts, vs) && init.Shaped()
    ensures forall i | 0 <= i < |ts| ::
              Placed(arch, ts, vs, init).At(Locate(arch, ts, i)) == Overlay(init.At(Locate(arch, ts, i)), vs[i])
    ensures forall p: Place | p !in Places(arch, ts) :: Placed(arch, ts, vs, init).At(p) == init.At(p)
  {
    var ps := Places(arch, ts);
    forall j, k | 0 <= j < k < |ts| ensures ps[j] != ps[k] {
      PlacesDistinct(arch, ts, k);
    }
    forall i | 0 <= i < |ts|
      ensures Filed(ps, vs, init, |ts|).At(ps[i]) == Overlay(init.At(ps[i]), vs[i])
    {
      PlaceFits(arch, ts, i);
      FiledAt(ps, vs, init, |ts|, i);
    }
    forall p: Place | p !in ps ensures Filed(ps, vs, init, |ts|).At(p) == init.At(p) {
      FiledElsewhere(ps, vs, init, |ts|, p);
    }
  }

  /** The argument bytes a callee (or a closure) finds in the register files. */
  function ReadRegs(arch: Arch, ts: seq<Type>, r: Regs): seq<Bytes>
    requires |ts| <= MAX_ARGS && r.Shaped()
  {
    seq(|ts|, i requires 0 <= i < |ts| => r.At(Locate(arch, ts, i))[..ts[i].Size()])
  }

  /** Two register images that agree on the registers and on the spill slots in
      use; the unused spill slots may hold anything. */
  predicate SameArgs(arch: Arch, ts: seq<Type>, r: Regs, r': Regs)
    requires r.Shaped() && r'.Shaped()
  {
    r.ints[..arch.IntRegs()] == r'.ints[..arch.IntRegs()] && r.floats == r'.floats &&
    forall k | 0 <= k < Spills(arch, ts, |ts|) && k < STACK_SLOTS :: r.stack[k] == r'.stack[k]
  }

  lemma ReadRegsUses(arch: Arch, ts: seq<Type>, r: Regs, r': Regs)
    requires |ts| <= MAX_ARGS && r.Shaped() && r'.Shaped() && SameArgs(arch, ts, r, r')
    ensures ReadRegs(arch, ts, r) == ReadRegs(arch, ts, r')
  {
    forall i | 0 <= i < |ts|
      ensures ReadRegs(arch, ts, r)[i] == ReadRegs(arch, ts, r')[i]
    {
      PlaceInRange(arch, ts, i);
      SpillBound(arch, ts, |ts|);
      match Locate(arch, ts, i)
      case IntReg(k) =>
        assert r.ints[..arch.IntRegs()][k] == r'.ints[..arch.IntRegs()][k];
      case _ =>
    }
  }

  /** Every argument survives the trip through the registers and spill area. */
  lemma RegisterRoundTrip(arch: Arch, ts: seq<Type>, vs: seq<Bytes>, init: Regs, r: Regs)
    requires Fits(ts, vs) && init.Shaped() && r.Shaped()
    requires SameArgs(arch, ts, Placed(arch, ts, vs, init), r)
    ensures ReadRegs(arch, ts, r) == vs
  {
    ReadRegsUses(arch, ts, Placed(arch, ts, vs, init), r);
    PlacedAt(arch, ts, vs, init);
  }

  // ---------------------------------------------------------------------
  // Packed argument storage

  function Offset(ts: seq<Type>, i: nat): nat
    requires i <= |ts|
  {
    if i == 0 then 0 else Offset(ts, i - 1) + ts[i - 1].Size()
  }

  function Flat(vs: seq<Bytes>, n: nat): Bytes
    requires n <= |vs|
  {
    if n == 0 then [] else Flat(vs, n - 1) + vs[n - 1]
  }

  lemma {:induction false} FlatLength(ts: seq<Type>, vs: seq<Bytes>, n: nat)
    requires Fits(ts, vs) && n <= |ts|
    ensures |Flat(vs, n)| == Offset(ts, n) <= 8 * n
  {
    if n > 0 {
      FlatLength(ts, vs, n - 1);
    }
  }

  /** Argument storage after the first n values are copied in back to back. */
  function Packed(storage: Bytes, vs: seq<Bytes>, n: nat): (r: Bytes)
    requires n <= |vs|
  {
    var flat := Flat(vs, n);
    if |flat| <= |storage| then flat + storage[|flat|..] else storage
  }

  function Pack(storage: Bytes, vs: seq<Bytes>): Bytes {
    Packed(storage, vs, |vs|)
  }

  function Offsets(ts: seq<Type>): (os: seq<nat>)
    ensures |os| == |ts|
  {
    seq(|ts|, i requires 0 <= i < |ts| => Offset(ts, i))
  }

  function SliceAt(storage: Bytes, offset: nat, size: nat): Bytes {
    if offset + size <= |storage| then storage[offset..offset + size] else []
  }

  /** read_callback_arg for each index: the bytes found at the offsets. */
  function Unpack(storage: Bytes, os: seq<nat>, ts: seq<Type>): (vs: seq<Bytes>)
    requires |os| >= |ts|
    ensures |vs| == |ts|
  {
    seq(|ts|, i requires 0 <= i < |ts| => SliceAt(storage, os[i], ts[i].Size()))
  }

  lemma {:induction false} FlatSlice(ts: seq<Type>, vs: seq<Bytes>, n: nat, i: nat)
    requires Fits(ts, vs) && i < n <= |ts|
    ensures Offset(ts, i) + ts[i].Size() <= |Flat(vs, n)|
    ensures Flat(vs, n)[Offset(ts, i)..Offset(ts, i) + ts[i].Size()] == vs[i]
    decreases n
  {
    FlatLength(ts, vs, n);
    FlatLength(ts, vs, n - 1);
    if i < n - 1 {
      FlatSlice(ts, vs, n - 1, i);
    }
  }

  lemma PackRoundTrip(storage: Bytes, ts: seq<Type>, vs: seq<Bytes>, os: seq<nat>)
    requires Fits(ts, vs) && |storage| == ARG_STORAGE
    requires |os| >= |ts| && os[..|ts|] == Offsets(ts)
    ensures |Pack(storage, vs)| == ARG_STORAGE
    ensures Unpack(Pack(storage, vs), os, ts) == vs
  {
    FlatLength(ts, vs, |ts|);
    forall i | 0 <= i < |ts| ensures Unpack(Pack(storage, vs), os, ts)[i] == vs[i] {
      FlatSlice(ts, vs, |ts|, i);
      assert os[i] == os[..|ts|][i];
    }
  }

  /** Host packing, sandbox call, closure re-packing and host unpacking compose
      to the identity on argument bytes, whatever the buffers held before. */
  lemma MarshalRoundTrip(arch: Arch, ts: seq<Type>, vs: seq<Bytes>, out: Bytes, back: Bytes, init: Regs, saved: Regs)
    requires Fits(ts, vs) && |out| == |back| == ARG_STORAGE && init.Shaped() && saved.Shaped()
    requires var got := Unpack(Pack(out, vs), Offsets(ts), ts);
             Typed(ts, got) ==> SameArgs(arch, ts, Placed(arch, ts, got, init), saved)
    ensures Unpack(Pack(back, ReadRegs(arch, ts, saved)), Offsets(ts), ts) == vs
  {
    assert Offsets(ts)[..|ts|] == Offsets(ts);
    PackRoundTrip(out, ts, vs, Offsets(ts));
    RegisterRoundTrip(arch, ts, vs, init, saved);
    PackRoundTrip(back, ts, vs, Offsets(ts));
  }

  /** The running counters of both register loops. */
  datatype Counters = Counters(ints: nat, floats: nat, spills: nat)
  {
    function Next(arch: Arch, float: bool): Place {
      if (if float then floats >= FLOAT_REGS else ints >= arch.IntRegs()) then Stack(spills)
      else if float then FloatReg(floats)
      else IntReg(ints)
    }

    function After(p: Place): Counters {
      match p
      case IntReg(_) => this.(ints := ints + 1)
      case FloatReg(_) => this.(floats := floats + 1)
      case Stack(_) => this.(spills := spills + 1)
    }
  }

  function CountersAt(arch: Arch, ts: seq<Type>, n: nat): Counters
    requires n <= |ts|
  {
    if n == 0 then Counters(0, 0, 0)
    else var c := CountersAt(arch, ts, n - 1); c.After(c.Next(arch, ts[n - 1].IsFloat()))
  }

  lemma {:induction false} CountersMeaning(arch: Arch, ts: seq<Type>, n: nat)
    requires n <= |ts|
    ensures CountersAt(arch, ts, n)
         == Counters(Min(Ints(ts, n), arch.IntRegs()), Min(Floats(ts, n), FLOAT_REGS), Spills(arch, ts, n))
  {
    if n > 0 {
      CountersMeaning(arch, ts, n - 1);
    }
  }

  lemma FinalCounts(arch: Arch, ts: seq<Type>)
    requires |ts| <= MAX_ARGS
    ensures CountersAt(arch, ts, |ts|)
         == Counters(Min(Ints(ts, |ts|), arch.IntRegs()), Min(Floats(ts, |ts|), FLOAT_REGS), Spills(arch, ts, |ts|))
    ensures Min(Ints(ts, |ts|), arch.IntRegs()) + Min(Floats(ts, |ts|), FLOAT_REGS) + Spills(arch, ts, |ts|) == |ts|
    ensures Spills(arch, ts, |ts|) <= STACK_SLOTS
  {
    CountersMeaning(arch, ts, |ts|);
    CountsPartition(ts, |ts|);
    SpillsClosedForm(arch, ts, |ts|);
  }

  /** Counting on the run finds the place the convention assigns. */
  lemma NextIsPlace(arch: Arch, ts: seq<Type>, i: nat)
    requires i < |ts| <= MAX_ARGS
    ensures CountersAt(arch, ts, i).Next(arch, ts[i].IsFloat()) == Places(arch, ts)[i]
    ensures forall r: Regs | r.Shaped() :: r.Has(Places(arch, ts)[i])
  {
    CountersMeaning(arch, ts, i);
    PlaceFits(arch, ts, i);
  }

  // ---------------------------------------------------------------------
  // The code

  function ZeroRegs(): (r: Regs)
    ensures r.Shaped()
  {
    var z := ZERO_SLOT;
    Regs([z, z, z, z, z, z, z, z], [z, z, z, z, z, z, z, z], [z, z, z, z])
  }

  lemma ZeroAt(p: Place)
    ensures forall i | 0 <= i < 8 :: ZeroRegs().At(p)[i] == 0
  {
  }

  /** dyfn_prep_call zero-extends every argument and leaves zero elsewhere. */
  lemma ArgumentValue(arch: Arch, ts: seq<Type>, vs: seq<Bytes>, p: Place)
    requires Fits(ts, vs)
    ensures forall i | 0 <= i < |ts| && Locate(arch, ts, i) == p ::
      WordOf(Placed(arch, ts, vs, ZeroRegs()).At(p)) == WordOf(vs[i])
    ensures p !in Places(arch, ts) ==> WordOf(Placed(arch, ts, vs, ZeroRegs()).At(p)) == 0
  {
    PlacedAt(arch, ts, vs, ZeroRegs());
    ZeroAt(p);
    ZeroWord(ZeroRegs().At(p));
    forall i | 0 <= i < |ts| && Locate(arch, ts, i) == p
      ensures WordOf(Placed(arch, ts, vs, ZeroRegs()).At(p)) == WordOf(vs[i])
    {
      ZeroExtends(ZeroRegs().At(p), vs[i]);
    }
  }

  /** struct DyfnCallArgs. */
  class CallArgs {
    const intRegs: array<Slot>
    const floatRegs: array<Slot>
    const stackArgs: array<Slot>
    var intCount: nat
    var floatCount: nat
    var stackCount: nat

    constructor ()
      ensures Valid()
      ensures fresh(intRegs) && fresh(floatRegs) && fresh(stackArgs)
    {
      intRegs, floatRegs := new Slot[8], new Slot[8];
      stackArgs := new Slot[STACK_SLOTS];
      intCount, floatCount, stackCount := 0, 0, 0;
    }

    ghost predicate Valid() {
      intRegs.Length == 8 && floatRegs.Length == 8 && stackArgs.Length == STACK_SLOTS &&
      intRegs != floatRegs && intRegs != stackArgs && floatRegs != stackArgs
    }

    ghost function Contents(): (r: Regs)
      reads intRegs, floatRegs, stackArgs
      requires Valid()
      ensures r.Shaped()
    {
      Regs(intRegs[..], floatRegs[..], stackArgs[..])
    }

    ghost function Count(): Counters
      reads this
    {
      Counters(intCount, floatCount, stackCount)
    }

    /** memcpy of one argument into the next free register of its class, or
        into the next spill slot once that file is full. */
    method File(arch: Arch, float: bool, v: Bytes)
      requires Valid() && |v| <= 8
      requires Contents().Has(Count().Next(arch, float))
      modifies this, intRegs, floatRegs, stackArgs
      ensures
        var p := old(Count().Next(arch, float));
        && Contents() == old(Contents()).Put(p, Overlay(old(Contents()).At(p), v))
        && Count() == old(Count()).After(p)
    {
      if float {
        if floatCount < FLOAT_REGS {
          floatRegs[floatCount] := Overlay(floatRegs[floatCount], v);
          floatCount := floatCount + 1;
        } else {
          stackArgs[stackCount] := Overlay(stackArgs[stackCount], v);
          stackCount := stackCount + 1;
        }
      } else {
        if intCount < arch.IntRegs() {
          intRegs[intCount] := Overlay(intRegs[intCount], v);
          intCount := intCount + 1;
        } else {
          stackArgs[stackCount] := Overlay(stackArgs[stackCount], v);
          stackCount := stackCount + 1;
        }
      }
    }

    /** memset(call, 0, sizeof(*call)). */
    method Clear()
      requires Valid()
      modifies this, intRegs, floatRegs, stackArgs
      ensures Contents() == ZeroRegs() && intCount == floatCount == stackCount == 0
    {
      forall k | 0 <= k < 8 { intRegs[k] := ZERO_SLOT; }
      forall k | 0 <= k < 8 { floatRegs[k] := ZERO_SLOT; }
      forall k | 0 <= k < STACK_SLOTS { stackArgs[k] := ZERO_SLOT; }
      intCount, floatCount, stackCount := 0, 0, 0;
    }

    /** dyfn_prep_call: clears the struct, then files each argument. */
    method PrepCall(arch: Arch, ts: seq<Type>, vs: seq<Bytes>)
      requires Valid() && Fits(ts, vs)
      modifies this, intRegs, floatRegs, stackArgs
      ensures Contents() == Placed(arch, ts, vs, ZeroRegs())
      ensures intCount + floatCount + stackCount == |ts|
      ensures stackCount == Spills(arch, ts, |ts|) <= STACK_SLOTS
      ensures intCount == Min(Ints(ts, |ts|), arch.IntRegs())
      ensures floatCount == Min(Floats(ts, |ts|), FLOAT_REGS)
    {
      Clear();
      for i := 0 to |ts|
        invariant Contents() == Filed(Places(arch, ts), vs, ZeroRegs(), i)
        invariant Count() == CountersAt(arch, ts, i)
      {
        NextIsPlace(arch, ts, i);
        File(arch, ts[i].IsFloat(), vs[i]);
      }
      FinalCounts(arch, ts);
    }
  }

  function Splice(storage: Bytes, at: nat, v: Bytes): (r: Bytes)
    requires at + |v| <= |storage|
    ensures |r| == |storage|
  {
    storage[..at] + v + storage[at + |v|..]
  }

  lemma SpliceAppend(storage: Bytes, packed: Bytes, v: Bytes)
    requires |packed| + |v| <= |storage|
    ensures Splice(packed + storage[|packed|..], |packed|, v) == packed + v + storage[|packed| + |v|..]
  {
  }

  lemma PackStep(storage: Bytes, ts: seq<Type>, vs: seq<Bytes>, i: nat)
    requires Fits(ts, vs) && |storage| == ARG_STORAGE && i < |ts|
    ensures |Packed(storage, vs, i)| == ARG_STORAGE
    ensures Offset(ts, i) + |vs[i]| <= ARG_STORAGE
    ensures Packed(storage, vs, i + 1) == Splice(Packed(storage, vs, i), Offset(ts, i), vs[i])
  {
    FlatLength(ts, vs, i);
    FlatLength(ts, vs, i + 1);
    SpliceAppend(storage, Flat(vs, i), vs[i]);
  }

  /** args[] with its first i entries rewritten. */
  function Rewritten(os: seq<nat>, was: seq<nat>, i: nat): (r: seq<nat>)
    requires i <= |os| <= |was|
    ensures |r| == |was|
  {
    os[..i] + was[i..]
  }

  lemma RewrittenStep(os: seq<nat>, was: seq<nat>, i: nat)
    requires i < |os| <= |was|
    ensures Rewritten(os, was, i + 1) == Rewritten(os, was, i)[i := os[i]]
  {
  }

  /** The slot a closure argument is read from, with the running indices of
      dyfn_closure_dispatch advanced past it. */
  method NextSaved(arch: Arch, saved: Regs, float: bool, intIdx: nat, floatIdx: nat, stackIdx: nat)
    returns (from: Slot, intIdx': nat, floatIdx': nat, stackIdx': nat)
    requires saved.Shaped() && saved.Has(Counters(intIdx, floatIdx, stackIdx).Next(arch, float))
    ensures
      var c := Counters(intIdx, floatIdx, stackIdx);
      && from == saved.At(c.Next(arch, float))
      && Counters(intIdx', floatIdx', stackIdx') == c.After(c.Next(arch, float))
  {
    intIdx', floatIdx', stackIdx' := intIdx, floatIdx, stackIdx;
    if float {
      if floatIdx < FLOAT_REGS {
        from, floatIdx' := saved.floats[floatIdx], floatIdx + 1;
      } else {
        from, stackIdx' := saved.stack[stackIdx], stackIdx + 1;
      }
    } else {
      if intIdx < arch.IntRegs() {
        from, intIdx' := saved.ints[intIdx], intIdx + 1;
      } else {
        from, stackIdx' := saved.stack[stackIdx], stackIdx + 1;
      }
    }
  }

  /** The part of PBoxChannel that carries call and callback arguments. */
  class ArgArea {
    const args: array<nat>
    const argStorage: array<byte>

    ghost predicate Valid() {
      args.Length == MAX_ARGS && argStorage.Length == ARG_STORAGE
    }

    /** args[i] = at; memcpy(&arg_storage[at], v, |v|). */
    method PutArg(i: nat, at: nat, v: Bytes)
      requires Valid() && i < MAX_ARGS && at + |v| <= ARG_STORAGE
      modifies args, argStorage
      ensures argStorage[..] == Splice(old(argStorage[..]), at, v)
      ensures args[..] == old(args[..])[i := at]
    {
      args[i] := at;
      forall k | 0 <= k < |v| { argStorage[at + k] := v[k]; }
    }

    /** The packing loop of pbox_call. */
    method PackCall(ts: seq<Type>, vs: seq<Bytes>)
      requires Valid() && Fits(ts, vs)
      modifies args, argStorage
      ensures argStorage[..] == Pack(old(argStorage[..]), vs)
      ensures args[..] == Rewritten(Offsets(ts), old(args[..]), |ts|)
    {
      ghost var was, wasArgs := argStorage[..], args[..];
      var offset := 0;
      for i := 0 to |ts|
        invariant offset == Offset(ts, i)
        invariant argStorage[..] == Packed(was, vs, i)
        invariant args[..] == Rewritten(Offsets(ts), wasArgs, i)
      {
        PackStep(was, ts, vs, i);
        RewrittenStep(Offsets(ts), wasArgs, i);
        PutArg(i, offset, vs[i]);
        offset := offset + ts[i].Size();
      }
    }

    /** The extraction loop of dyfn_closure_dispatch: running indices into the
        saved registers, spilled arguments taken in declaration order. */
    method ExtractSaved(arch: Arch, ts: seq<Type>, saved: Regs)
      requires Valid() && |ts| <= MAX_ARGS && saved.Shaped()
      modifies args, argStorage
      ensures argStorage[..] == Pack(old(argStorage[..]), ReadRegs(arch, ts, saved))
      ensures args[..] == Rewritten(Offsets(ts), old(args[..]), |ts|)
    {
      ghost var was, wasArgs := argStorage[..], args[..];
      ghost var vs := ReadRegs(arch, ts, saved);
      var intIdx, floatIdx, stackIdx, offset := 0, 0, 0, 0;
      for i := 0 to |ts|
        invariant offset == Offset(ts, i)
        invariant argStorage[..] == Packed(was, vs, i)
        invariant args[..] == Rewritten(Offsets(ts), wasArgs, i)
        invariant Counters(intIdx, floatIdx, stackIdx) == CountersAt(arch, ts, i)
      {
        NextIsPlace(arch, ts, i);
        PackStep(was, ts, vs, i);
        RewrittenStep(Offsets(ts), wasArgs, i);
        var from;
        from, intIdx, floatIdx, stackIdx := NextSaved(arch, saved, ts[i].IsFloat(), intIdx, floatIdx, stackIdx);
        PutArg(i, offset, from[..ts[i].Size()]);
        offset := offset + ts[i].Size();
      }
    }
  }
}
