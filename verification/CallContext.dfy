/** CallContext: passing host variables to a sandboxed call by copy in and copy
    back, against passing them by reference. */
module CallContext {
  import opened Types

  datatype Mode = In | Out | InOut

  /** A parameter: how it is passed, and which host variable it names. */
  datatype Param = Param(mode: Mode, v: nat)

  datatype Action = Read(p: nat, k: nat) | Write(p: nat, k: nat, b: byte) | Return

  /** What the callee does at step n, having read the bytes in seen. It reaches
      its parameters only by number and byte offset, as through pointers. */
  type Callee = (nat, seq<byte>) -> Action

  /** Every parameter names a variable. */
  predicate Named(ps: seq<Param>, vars: seq<Bytes>) {
    forall p | 0 <= p < |ps| :: ps[p].v < |vars|
  }

  /** No two parameters share a byte of any variable. */
  predicate Separate(ps: seq<Param>, vars: seq<Bytes>)
    requires Named(ps, vars)
  {
    forall p, q | 0 <= p < q < |ps| && ps[p].v == ps[q].v :: vars[ps[p].v] == []
  }

  predicate SameShape(a: seq<Bytes>, b: seq<Bytes>) {
    |a| == |b| && forall i | 0 <= i < |a| :: |a[i]| == |b[i]|
  }

  /** One cell per parameter, as large as its variable. */
  predicate CellsFit(ps: seq<Param>, vars: seq<Bytes>, cells: seq<Bytes>)
    requires Named(ps, vars)
  {
    |cells| == |ps| && forall p | 0 <= p < |ps| :: |cells[p]| == |vars[ps[p].v]|
  }

  predicate Holds(mem: seq<Bytes>, i: nat, k: nat) {
    i < |mem| && k < |mem[i]|
  }

  function Poke(mem: seq<Bytes>, i: nat, k: nat, b: byte): (r: seq<Bytes>)
    requires Holds(mem, i, k)
    ensures SameShape(mem, r)
  {
    mem[i := mem[i][k := b]]
  }

  // ---------------------------------------------------------------------
  // By reference: CallContext<Passthrough>

  datatype Run = Run(mem: seq<Bytes>, seen: seq<byte>)

  function RefRun(ps: seq<Param>, callee: Callee, n: nat, vars: seq<Bytes>): (r: Run)
    requires Named(ps, vars)
    ensures SameShape(vars, r.mem)
  {
    if n == 0 then Run(vars, [])
    else
      var r := RefRun(ps, callee, n - 1, vars);
      match callee(n - 1, r.seen)
      case Read(p, k) =>
        if p < |ps| && Holds(r.mem, ps[p].v, k) then r.(seen := r.seen + [r.mem[ps[p].v][k]]) else r
      case Write(p, k, b) =>
        if p < |ps| && Holds(r.mem, ps[p].v, k) then r.(mem := Poke(r.mem, ps[p].v, k, b)) else r
      case Return => r
  }

  // ---------------------------------------------------------------------
  // By copy: CallContext<Process> and CallContext<LFI>

  /** The cells at the start of the call: copies for in and inout, whatever the
      memory held before for out. */
  function Staged(ps: seq<Param>, vars: seq<Bytes>, garbage: seq<Bytes>): (cells: seq<Bytes>)
    requires Named(ps, vars) && CellsFit(ps, vars, garbage)
    ensures CellsFit(ps, vars, cells)
  {
    seq(|ps|, p requires 0 <= p < |ps| => if ps[p].mode.Out? then garbage[p] else vars[ps[p].v])
  }

  function CopyRun(ps: seq<Param>, callee: Callee, n: nat, cells: seq<Bytes>): (r: Run)
    requires |cells| == |ps|
    ensures SameShape(cells, r.mem)
  {
    if n == 0 then Run(cells, [])
    else
      var r := CopyRun(ps, callee, n - 1, cells);
      match callee(n - 1, r.seen)
      case Read(p, k) => if Holds(r.mem, p, k) then r.(seen := r.seen + [r.mem[p][k]]) else r
      case Write(p, k, b) => if Holds(r.mem, p, k) then r.(mem := Poke(r.mem, p, k, b)) else r
      case Return => r
  }

  /** The host variables after the first n copy-backs. */
  function Finalized(ps: seq<Param>, vars: seq<Bytes>, cells: seq<Bytes>, n: nat): (r: seq<Bytes>)
    requires Named(ps, vars) && |cells| == |ps| && n <= |ps|
    ensures |r| == |vars|
  {
    if n == 0 then vars
    else
      var r := Finalized(ps, vars, cells, n - 1);
      if ps[n - 1].mode.In? then r else r[ps[n - 1].v := cells[n - 1]]
  }

  lemma {:induction false} FinalizedElsewhere(ps: seq<Param>, vars: seq<Bytes>, cells: seq<Bytes>, n: nat, v: nat)
    requires Named(ps, vars) && |cells| == |ps| && n <= |ps| && v < |vars|
    requires forall p | 0 <= p < n :: ps[p].v != v || ps[p].mode.In?
    ensures Finalized(ps, vars, cells, n)[v] == vars[v]
  {
    if n > 0 {
      FinalizedElsewhere(ps, vars, cells, n - 1, v);
    }
  }

  /** A variable without bytes has none afterwards. */
  lemma {:induction false} FinalizedEmpty(ps: seq<Param>, vars: seq<Bytes>, cells: seq<Bytes>, n: nat, v: nat)
    requires Named(ps, vars) && CellsFit(ps, vars, cells) && n <= |ps| && v < |vars| && vars[v] == []
    ensures Finalized(ps, vars, cells, n)[v] == []
  {
    if n > 0 {
      FinalizedEmpty(ps, vars, cells, n - 1, v);
    }
  }

  lemma {:induction false} FinalizedAt(ps: seq<Param>, vars: seq<Bytes>, cells: seq<Bytes>, n: nat, p: nat)
    requires Named(ps, vars) && CellsFit(ps, vars, cells) && p < n <= |ps| && Separate(ps, vars)
    ensures Finalized(ps, vars, cells, n)[ps[p].v] == if ps[p].mode.In? then vars[ps[p].v] else cells[p]
    decreases n
  {
    if vars[ps[p].v] == [] {
      FinalizedEmpty(ps, vars, cells, n, ps[p].v);
    } else if p < n - 1 {
      FinalizedAt(ps, vars, cells, n - 1, p);
    } else {
      FinalizedElsewhere(ps, vars, cells, p, ps[p].v);
    }
  }

  /** Shared or not, a variable ends with the cell of the last parameter that is
      copied back to it. */
  lemma {:induction false} LastCopyWins(ps: seq<Param>, vars: seq<Bytes>, cells: seq<Bytes>, n: nat, p: nat)
    requires Named(ps, vars) && |cells| == |ps| && p < n <= |ps| && !ps[p].mode.In?
    requires forall q | p < q < n :: ps[q].v != ps[p].v || ps[q].mode.In?
    ensures Finalized(ps, vars, cells, n)[ps[p].v] == cells[p]
    decreases n
  {
    if p < n - 1 {
      LastCopyWins(ps, vars, cells, n - 1, p);
    }
  }

  // ---------------------------------------------------------------------
  // When the two agree

  /** Byte k of parameter p was written in the first n steps by reference. */
  predicate Written(ps: seq<Param>, callee: Callee, n: nat, vars: seq<Bytes>, p: nat, k: nat)
    requires Named(ps, vars)
  {
    n > 0 &&
    (Written(ps, callee, n - 1, vars, p, k) ||
     match callee(n - 1, RefRun(ps, callee, n - 1, vars).seen)
     case Write(q, j, _) => p == q && k == j
     case _ => false)
  }

  predicate OutByte(ps: seq<Param>, vars: seq<Bytes>, p: nat, k: nat) {
    p < |ps| && ps[p].mode.Out? && Holds(vars, ps[p].v, k)
  }

  /** Step i does not read an out byte that nothing has written yet. */
  predicate ReadsKnown(ps: seq<Param>, callee: Callee, i: nat, vars: seq<Bytes>)
    requires Named(ps, vars)
  {
    match callee(i, RefRun(ps, callee, i, vars).seen)
    case Read(p, k) => OutByte(ps, vars, p, k) ==> Written(ps, callee, i, vars, p, k)
    case _ => true
  }

  /** Out bytes are written before they are read and before the call ends, and in
      variables end as they began. */
  ghost predicate Disciplined(ps: seq<Param>, callee: Callee, n: nat, vars: seq<Bytes>)
    requires Named(ps, vars)
  {
    (forall i | 0 <= i < n :: ReadsKnown(ps, callee, i, vars)) &&
    (forall p, k | OutByte(ps, vars, p, k) :: Written(ps, callee, n, vars, p, k)) &&
    (forall p | 0 <= p < |ps| && ps[p].mode.In? :: RefRun(ps, callee, n, vars).mem[ps[p].v] == vars[ps[p].v])
  }

  /** The callee reads the same bytes and the host variables end up the same. */
  predicate Agree(ps: seq<Param>, callee: Callee, n: nat, vars: seq<Bytes>, garbage: seq<Bytes>)
    requires Named(ps, vars) && CellsFit(ps, vars, garbage)
  {
    var ref, copy := RefRun(ps, callee, n, vars), CopyRun(ps, callee, n, Staged(ps, vars, garbage));
    copy.seen == ref.seen && Finalized(ps, vars, copy.mem, |ps|) == ref.mem
  }

  /** One byte of a cell against the byte of the variable it stands for. */
  predicate ByteFollows(ps: seq<Param>, callee: Callee, n: nat, vars: seq<Bytes>, garbage: seq<Bytes>, p: nat, k: nat)
    requires Named(ps, vars) && CellsFit(ps, vars, garbage) && Holds(garbage, p, k)
  {
    var ref, copy := RefRun(ps, callee, n, vars).mem, CopyRun(ps, callee, n, Staged(ps, vars, garbage)).mem;
    if OutByte(ps, vars, p, k) && !Written(ps, callee, n, vars, p, k) then
      copy[p][k] == garbage[p][k] && ref[ps[p].v][k] == vars[ps[p].v][k]
    else copy[p][k] == ref[ps[p].v][k]
  }

  /** As long as no unwritten out byte is read, the two runs go in lockstep. */
  lemma {:induction false} Lockstep(ps: seq<Param>, callee: Callee, n: nat, vars: seq<Bytes>, garbage: seq<Bytes>)
    requires Named(ps, vars) && CellsFit(ps, vars, garbage) && Separate(ps, vars)
    requires forall i | 0 <= i < n :: ReadsKnown(ps, callee, i, vars)
    ensures CopyRun(ps, callee, n, Staged(ps, vars, garbage)).seen == RefRun(ps, callee, n, vars).seen
    ensures forall p, k | Holds(garbage, p, k) :: ByteFollows(ps, callee, n, vars, garbage, p, k)
  {
    if n > 0 {
      Lockstep(ps, callee, n - 1, vars, garbage);
      assert ReadsKnown(ps, callee, n - 1, vars);
      LockstepSeen(ps, callee, n, vars, garbage);
      forall p, k | Holds(garbage, p, k) ensures ByteFollows(ps, callee, n, vars, garbage, p, k) {
        assert ByteFollows(ps, callee, n - 1, vars, garbage, p, k);
        LockstepByte(ps, callee, n, vars, garbage, p, k);
      }
    }
  }

  lemma LockstepSeen(ps: seq<Param>, callee: Callee, n: nat, vars: seq<Bytes>, garbage: seq<Bytes>)
    requires Named(ps, vars) && CellsFit(ps, vars, garbage) && n > 0
    requires CopyRun(ps, callee, n - 1, Staged(ps, vars, garbage)).seen == RefRun(ps, callee, n - 1, vars).seen
    requires forall p, k | Holds(garbage, p, k) :: ByteFollows(ps, callee, n - 1, vars, garbage, p, k)
    requires ReadsKnown(ps, callee, n - 1, vars)
    ensures CopyRun(ps, callee, n, Staged(ps, vars, garbage)).seen == RefRun(ps, callee, n, vars).seen
  {
    var ref := RefRun(ps, callee, n - 1, vars);
    match callee(n - 1, ref.seen)
    case Read(p, k) =>
      if Holds(garbage, p, k) {
        assert ByteFollows(ps, callee, n - 1, vars, garbage, p, k);
      }
    case _ =>
  }

  lemma LockstepByte(ps: seq<Param>, callee: Callee, n: nat, vars: seq<Bytes>, garbage: seq<Bytes>, p: nat, k: nat)
    requires Named(ps, vars) && CellsFit(ps, vars, garbage) && Separate(ps, vars) && n > 0 && Holds(garbage, p, k)
    requires CopyRun(ps, callee, n - 1, Staged(ps, vars, garbage)).seen == RefRun(ps, callee, n - 1, vars).seen
    requires ByteFollows(ps, callee, n - 1, vars, garbage, p, k)
    ensures ByteFollows(ps, callee, n, vars, garbage, p, k)
  {
    match callee(n - 1, RefRun(ps, callee, n - 1, vars).seen)
    case Write(q, j, b) =>
      if q < |ps| && q != p {
        assert ps[q].v != ps[p].v;
      }
    case _ =>
  }

  /** Variables that no parameter names are left alone by reference. */
  lemma {:induction false} OthersKept(ps: seq<Param>, callee: Callee, n: nat, vars: seq<Bytes>, v: nat)
    requires Named(ps, vars) && v < |vars| && forall p | 0 <= p < |ps| :: ps[p].v != v
    ensures RefRun(ps, callee, n, vars).mem[v] == vars[v]
  {
    if n > 0 {
      OthersKept(ps, callee, n - 1, vars, v);
    }
  }

  lemma DisciplineSuffices(ps: seq<Param>, callee: Callee, n: nat, vars: seq<Bytes>, garbage: seq<Bytes>)
    requires Named(ps, vars) && CellsFit(ps, vars, garbage) && Separate(ps, vars) && Disciplined(ps, callee, n, vars)
    ensures Agree(ps, callee, n, vars, garbage)
  {
    Lockstep(ps, callee, n, vars, garbage);
    var ref, cells := RefRun(ps, callee, n, vars).mem, CopyRun(ps, callee, n, Staged(ps, vars, garbage)).mem;
    var final := Finalized(ps, vars, cells, |ps|);
    forall v | 0 <= v < |vars| ensures final[v] == ref[v] {
      if p :| 0 <= p < |ps| && ps[p].v == v {
        FinalizedAt(ps, vars, cells, |ps|, p);
        if !ps[p].mode.In? {
          forall k | 0 <= k < |cells[p]| ensures cells[p][k] == ref[v][k] {
            assert Holds(garbage, p, k) && ByteFollows(ps, callee, n, vars, garbage, p, k);
          }
        }
      } else {
        FinalizedElsewhere(ps, vars, cells, |ps|, v);
        OthersKept(ps, callee, n, vars, v);
      }
    }
  }

  function Flipped(b: byte): (r: byte)
    ensures r != b
  {
    if b == 0 then 1 else 0
  }

  /** Memory in which byte k of cell p differs from the host variable's. */
  function Adverse(ps: seq<Param>, vars: seq<Bytes>, p: nat, k: nat): (g: seq<Bytes>)
    requires Named(ps, vars) && OutByte(ps, vars, p, k)
    ensures CellsFit(ps, vars, g) && g[p][k] != vars[ps[p].v][k]
  {
    Poke(seq(|ps|, q requires 0 <= q < |ps| => vars[ps[q].v]), p, k, Flipped(vars[ps[p].v][k]))
  }

  predicate DifferAt(a: seq<byte>, b: seq<byte>, k: nat) {
    k < |a| && k < |b| && a[k] != b[k]
  }

  /** What has been read is never unread. */
  lemma {:induction false} DifferenceStays(ps: seq<Param>, callee: Callee, i: nat, n: nat, vars: seq<Bytes>, cells: seq<Bytes>, k: nat)
    requires Named(ps, vars) && |cells| == |ps| && i <= n
    requires DifferAt(RefRun(ps, callee, i, vars).seen, CopyRun(ps, callee, i, cells).seen, k)
    ensures DifferAt(RefRun(ps, callee, n, vars).seen, CopyRun(ps, callee, n, cells).seen, k)
    decreases n
  {
    if i < n {
      DifferenceStays(ps, callee, i, n - 1, vars, cells, k);
    }
  }

  /** The first read of an unwritten out byte sees memory the caller never
      supplied. */
  lemma EarlyReadShows(ps: seq<Param>, callee: Callee, i: nat, n: nat, vars: seq<Bytes>) returns (garbage: seq<Bytes>)
    requires Named(ps, vars) && Separate(ps, vars) && i < n
    requires !ReadsKnown(ps, callee, i, vars)
    requires forall j | 0 <= j < i :: ReadsKnown(ps, callee, j, vars)
    ensures CellsFit(ps, vars, garbage) && !Agree(ps, callee, n, vars, garbage)
  {
    var k;
    garbage, k := EarlyReadDiffers(ps, callee, i, vars);
    DifferenceStays(ps, callee, i + 1, n, vars, Staged(ps, vars, garbage), k);
  }

  lemma EarlyReadDiffers(ps: seq<Param>, callee: Callee, i: nat, vars: seq<Bytes>) returns (garbage: seq<Bytes>, k: nat)
    requires Named(ps, vars) && Separate(ps, vars) && !ReadsKnown(ps, callee, i, vars)
    requires forall j | 0 <= j < i :: ReadsKnown(ps, callee, j, vars)
    ensures CellsFit(ps, vars, garbage)
    ensures DifferAt(RefRun(ps, callee, i + 1, vars).seen, CopyRun(ps, callee, i + 1, Staged(ps, vars, garbage)).seen, k)
  {
    var seen := RefRun(ps, callee, i, vars).seen;
    var read := callee(i, seen);
    k := |seen|;
    garbage := Adverse(ps, vars, read.p, read.k);
    Lockstep(ps, callee, i, vars, garbage);
    assert ByteFollows(ps, callee, i, vars, garbage, read.p, read.k);
  }

  /** An out byte never written comes back as whatever the cell held. */
  lemma UnwrittenShows(ps: seq<Param>, callee: Callee, n: nat, vars: seq<Bytes>, p: nat, k: nat) returns (garbage: seq<Bytes>)
    requires Named(ps, vars) && Separate(ps, vars) && OutByte(ps, vars, p, k) && !Written(ps, callee, n, vars, p, k)
    requires forall j | 0 <= j < n :: ReadsKnown(ps, callee, j, vars)
    ensures CellsFit(ps, vars, garbage) && !Agree(ps, callee, n, vars, garbage)
  {
    garbage := Adverse(ps, vars, p, k);
    Lockstep(ps, callee, n, vars, garbage);
    assert ByteFollows(ps, callee, n, vars, garbage, p, k);
    var cells := CopyRun(ps, callee, n, Staged(ps, vars, garbage)).mem;
    FinalizedAt(ps, vars, cells, |ps|, p);
  }

  /** A changed in variable changes by reference only. */
  lemma InChangeShows(ps: seq<Param>, callee: Callee, n: nat, vars: seq<Bytes>, p: nat) returns (garbage: seq<Bytes>)
    requires Named(ps, vars) && Separate(ps, vars) && p < |ps| && ps[p].mode.In?
    requires RefRun(ps, callee, n, vars).mem[ps[p].v] != vars[ps[p].v]
    ensures CellsFit(ps, vars, garbage) && !Agree(ps, callee, n, vars, garbage)
  {
    garbage := seq(|ps|, q requires 0 <= q < |ps| => vars[ps[q].v]);
    FinalizedAt(ps, vars, CopyRun(ps, callee, n, Staged(ps, vars, garbage)).mem, |ps|, p);
  }

  lemma FirstEarlyRead(ps: seq<Param>, callee: Callee, n: nat, vars: seq<Bytes>) returns (i: nat)
    requires Named(ps, vars) && exists j :: 0 <= j < n && !ReadsKnown(ps, callee, j, vars)
    ensures i < n && !ReadsKnown(ps, callee, i, vars) && forall j | 0 <= j < i :: ReadsKnown(ps, callee, j, vars)
  {
    i := 0;
    while ReadsKnown(ps, callee, i, vars)
      invariant i < n && forall j | 0 <= j < i :: ReadsKnown(ps, callee, j, vars)
      decreases n - i
    {
      i := i + 1;
    }
  }

  /** For parameters that share no byte, and any callee and number of steps:
      passing by copy is passing by reference, whatever the cells held before,
      exactly when the callee is disciplined. */
  lemma AgreementExact(ps: seq<Param>, callee: Callee, n: nat, vars: seq<Bytes>)
    requires Named(ps, vars) && Separate(ps, vars)
    ensures (forall garbage | CellsFit(ps, vars, garbage) :: Agree(ps, callee, n, vars, garbage))
       <==> Disciplined(ps, callee, n, vars)
  {
    if Disciplined(ps, callee, n, vars) {
      forall garbage | CellsFit(ps, vars, garbage) ensures Agree(ps, callee, n, vars, garbage) {
        DisciplineSuffices(ps, callee, n, vars, garbage);
      }
    } else if exists j :: 0 <= j < n && !ReadsKnown(ps, callee, j, vars) {
      var i := FirstEarlyRead(ps, callee, n, vars);
      var garbage := EarlyReadShows(ps, callee, i, n, vars);
    } else if p, k :| OutByte(ps, vars, p, k) && !Written(ps, callee, n, vars, p, k) {
      var garbage := UnwrittenShows(ps, callee, n, vars, p, k);
    } else {
      var p :| 0 <= p < |ps| && ps[p].mode.In? && RefRun(ps, callee, n, vars).mem[ps[p].v] != vars[ps[p].v];
      var garbage := InChangeShows(ps, callee, n, vars, p);
    }
  }

  /** With no steps at all (a context unwound before its call) the host variables
      survive exactly when no out parameter has a byte to lose. */
  lemma UncalledContext(ps: seq<Param>, callee: Callee, vars: seq<Bytes>)
    requires Named(ps, vars) && Separate(ps, vars)
    ensures (forall garbage | CellsFit(ps, vars, garbage) :: Agree(ps, callee, 0, vars, garbage))
       <==> forall p | 0 <= p < |ps| && ps[p].mode.Out? :: vars[ps[p].v] == []
  {
    AgreementExact(ps, callee, 0, vars);
    if p :| 0 <= p < |ps| && ps[p].mode.Out? && vars[ps[p].v] != [] {
      assert OutByte(ps, vars, p, 0);
    }
  }

  // ---------------------------------------------------------------------
  // The object

  /** A copy-back: the host variable and the cell it is filled from. */
  datatype CopyBack = CopyBack(v: nat, cell: nat)

  function CopyBacks(ps: seq<Param>, n: nat): seq<CopyBack>
    requires n <= |ps|
  {
    if n == 0 then []
    else if ps[n - 1].mode.In? then CopyBacks(ps, n - 1)
    else CopyBacks(ps, n - 1) + [CopyBack(ps[n - 1].v, n - 1)]
  }

  predicate InRange(cbs: seq<CopyBack>, vars: seq<Bytes>, cells: seq<Bytes>) {
    forall i | 0 <= i < |cbs| :: cbs[i].v < |vars| && cbs[i].cell < |cells|
  }

  /** The first n entries of the copy-back list, run in order. */
  function Applied(cbs: seq<CopyBack>, vars: seq<Bytes>, cells: seq<Bytes>, n: nat): (r: seq<Bytes>)
    requires InRange(cbs, vars, cells) && n <= |cbs|
    ensures |r| == |vars|
  {
    if n == 0 then vars else Applied(cbs, vars, cells, n - 1)[cbs[n - 1].v := cells[cbs[n - 1].cell]]
  }

  lemma {:induction false} AppliedPrefix(cbs: seq<CopyBack>, cb: CopyBack, vars: seq<Bytes>, cells: seq<Bytes>, n: nat)
    requires InRange(cbs + [cb], vars, cells) && InRange(cbs, vars, cells) && n <= |cbs|
    ensures Applied(cbs + [cb], vars, cells, n) == Applied(cbs, vars, cells, n)
  {
    if n > 0 {
      AppliedPrefix(cbs, cb, vars, cells, n - 1);
    }
  }

  /** Running the list is copying back parameter by parameter. */
  lemma {:induction false} CopyBacksFinalize(ps: seq<Param>, vars: seq<Bytes>, cells: seq<Bytes>, n: nat)
    requires Named(ps, vars) && |cells| == |ps| && n <= |ps|
    ensures InRange(CopyBacks(ps, n), vars, cells)
    ensures Applied(CopyBacks(ps, n), vars, cells, |CopyBacks(ps, n)|) == Finalized(ps, vars, cells, n)
  {
    if n > 0 {
      CopyBacksFinalize(ps, vars, cells, n - 1);
      if !ps[n - 1].mode.In? {
        var front := CopyBacks(ps, n - 1);
        AppliedPrefix(front, CopyBack(ps[n - 1].v, n - 1), vars, cells, |front|);
      }
    }
  }

  lemma {:induction false} CopyBacksExtend(ps: seq<Param>, q: Param, n: nat)
    requires n <= |ps|
    ensures CopyBacks(ps + [q], n) == CopyBacks(ps, n)
  {
    if n > 0 {
      CopyBacksExtend(ps, q, n - 1);
    }
  }

  /** CallContext<Process>, with the host variables it refers to and the arena
      cells it has been given. */
  class Context {
    var host: seq<Bytes>
    var cells: seq<Bytes>
    var copybacks: seq<CopyBack>
    var finalized: bool
    ghost var params: seq<Param>

    constructor (host: seq<Bytes>)
      ensures Valid() && this.host == host && params == [] && !finalized
    {
      this.host, cells, copybacks, finalized, params := host, [], [], false, [];
    }

    ghost predicate Valid()
      reads this
    {
      Named(params, host) && CellsFit(params, host, cells) && copybacks == CopyBacks(params, |params|)
    }

    /** out, in and inout. block is the arena block idmem_alloc gives, with the
        bytes it happens to hold; none when the arena is full, and the call then
        throws before anything is recorded. */
    method Pass(mode: Mode, v: nat, block: Bytes, granted: bool) returns (ok: bool)
      requires Valid() && v < |host| && |block| == |host[v]|
      modifies this`cells, this`copybacks, this`params
      ensures Valid() && ok == granted
      ensures ok ==> params == old(params) + [Param(mode, v)] &&
                     cells == old(cells) + [if mode.Out? then block else host[v]]
      ensures !ok ==> params == old(params) && cells == old(cells) && copybacks == old(copybacks)
    {
      if !granted {
        return false;
      }
      CopyBacksExtend(params, Param(mode, v), |params|);
      var cell := if mode.Out? then block else host[v];
      if !mode.In? {
        copybacks := copybacks + [CopyBack(v, |cells|)];
      }
      cells := cells + [cell];
      params := params + [Param(mode, v)];
      return true;
    }

    /** finalize: runs the copy-backs the first time only. */
    method Finalize()
      requires Valid()
      modifies this`host, this`finalized
      ensures finalized
      ensures host == if old(finalized) then old(host) else Finalized(params, old(host), cells, |params|)
    {
      if finalized {
        return;
      }
      finalized := true;
      CopyBacksFinalize(params, host, cells, |params|);
      for i := 0 to |copybacks|
        invariant finalized && host == Applied(copybacks, old(host), cells, i)
      {
        host := host[copybacks[i].v := cells[copybacks[i].cell]];
      }
    }

    /** The sandboxed function at work on its cells. */
    method Execute(callee: Callee, n: nat) returns (seen: seq<byte>)
      requires Valid()
      modifies this`cells
      ensures Valid()
      ensures Run(cells, seen) == CopyRun(params, callee, n, old(cells))
    {
      seen := [];
      for i := 0 to n
        invariant Run(cells, seen) == CopyRun(params, callee, i, old(cells))
      {
        match callee(i, seen)
        case Read(p, k) =>
          if Holds(cells, p, k) {
            seen := seen + [cells[p][k]];
          }
        case Write(p, k, b) =>
          if Holds(cells, p, k) {
            cells := Poke(cells, p, k, b);
          }
        case Return =>
      }
    }

    /** Sandbox::call with a context: the call, then finalize. */
    method Call(callee: Callee, n: nat) returns (seen: seq<byte>)
      requires Valid()
      modifies this`cells, this`host, this`finalized
      ensures finalized && Run(cells, seen) == CopyRun(params, callee, n, old(cells))
      ensures host == if old(finalized) then old(host) else Finalized(params, old(host), cells, |params|)
    {
      seen := Execute(callee, n);
      Finalize();
    }
  }

  /** A whole use of a fresh context: pass every parameter, call once. For a
      disciplined callee on parameters that share no byte the host is left as by
      reference, whatever the arena held. */
  method CallOnce(vars: seq<Bytes>, ps: seq<Param>, garbage: seq<Bytes>, callee: Callee, n: nat)
    returns (host: seq<Bytes>, seen: seq<byte>)
    requires Named(ps, vars) && CellsFit(ps, vars, garbage)
    ensures Separate(ps, vars) && Disciplined(ps, callee, n, vars) ==> Run(host, seen) == RefRun(ps, callee, n, vars)
  {
    var ctx := new Context(vars);
    for i := 0 to |ps|
      invariant fresh(ctx) && ctx.Valid() && ctx.host == vars && !ctx.finalized
      invariant ctx.params == ps[..i] && ctx.cells == Staged(ps, vars, garbage)[..i]
    {
      var ok := ctx.Pass(ps[i].mode, ps[i].v, garbage[i], true);
    }
    assert ctx.params == ps && ctx.cells == Staged(ps, vars, garbage);
    seen := ctx.Call(callee, n);
    host := ctx.host;
    if Separate(ps, vars) && Disciplined(ps, callee, n, vars) {
      DisciplineSuffices(ps, callee, n, vars, garbage);
    }
  }
}
