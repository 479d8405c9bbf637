/** Per-thread bump arenas: the identity-mapped one of the process backend and
    the malloc'ed one of the passthrough backend. */
module Arena {
  import opened Alignment

  const IDMEM_SIZE: nat := 0x10_0000
  const HOST_ARENA_SIZE: nat := 0x1_0000
  const SIZE_LIMIT: nat := 0x1_0000_0000_0000_0000

  datatype Block = Block(addr: nat, size: nat)

  /** An identity region and the blocks handed out since its last reset; base 0
      is NULL, not yet mapped. */
  datatype Region = Region(base: nat, size: nat, offset: nat, live: seq<Block>)

  const UNMAPPED: Region := Region(0, 0, 0, [])

  /** 16-byte granules a request takes. */
  function Granules(size: nat): (g: nat)
    ensures size <= 16 * g < size + 16
  {
    (size + 15) / 16
  }

  // ---------------------------------------------------------------------
  // The identity arena

  /** Granules the first n live blocks take. */
  function Used(live: seq<Block>, n: nat): nat
    requires n <= |live|
  {
    if n == 0 then 0 else Used(live, n - 1) + Granules(live[n - 1].size)
  }

  predicate InPlace(r: Region, i: nat)
    requires i < |r.live|
  {
    r.live[i].addr == r.base + 16 * Used(r.live, i)
  }

  /** The live blocks tile the used part of the region, in order of request. */
  predicate Good(r: Region) {
    r.offset == 16 * Used(r.live, |r.live|) && r.offset <= r.size &&
    (forall i | 0 <= i < |r.live| :: InPlace(r, i)) &&
    if r.base == 0 then r == UNMAPPED
    else r.size == IDMEM_SIZE && r.base % 16 == 0 && r.base + r.size < SIZE_LIMIT
  }

  lemma {:induction false} UsedGrows(live: seq<Block>, i: nat, n: nat)
    requires i <= n <= |live|
    ensures Used(live, i) <= Used(live, n)
    decreases n
  {
    if i < n {
      UsedGrows(live, i, n - 1);
    }
  }

  lemma {:induction false} UsedPrefix(live: seq<Block>, b: Block, n: nat)
    requires n <= |live|
    ensures Used(live + [b], n) == Used(live, n)
  {
    if n > 0 {
      UsedPrefix(live, b, n - 1);
    }
  }

  predicate Covers(b: Block, x: nat) {
    b.addr <= x < b.addr + b.size
  }

  ghost predicate Meet(b: Block, c: Block) {
    exists x :: Covers(b, x) && Covers(c, x)
  }

  /** base <= addr and addr + size <= base + region size: one region's test in
      pbox_in_idmem. */
  predicate InRegion(r: Region, addr: nat, size: nat) {
    r.base != 0 && r.base <= addr && addr + size <= r.base + r.size
  }

  /** Every live block is 16-aligned, inside its region and apart from every
      other live block. */
  lemma LiveBlocks(r: Region, i: nat, j: nat)
    requires Good(r) && i < |r.live| && j < |r.live| && i != j
    ensures r.live[i].addr % 16 == 0 && InRegion(r, r.live[i].addr, r.live[i].size)
    ensures !Meet(r.live[i], r.live[j])
  {
    LiveInside(r, i);
    assert InPlace(r, i) && InPlace(r, j);
    if i < j { UsedGrows(r.live, i + 1, j); } else { UsedGrows(r.live, j + 1, i); }
  }

  lemma LiveInside(r: Region, i: nat)
    requires Good(r) && i < |r.live|
    ensures r.live[i].addr % 16 == 0 && InRegion(r, r.live[i].addr, r.live[i].size)
  {
    UsedGrows(r.live, i + 1, |r.live|);
    assert InPlace(r, i);
    assert Used(r.live, i + 1) == Used(r.live, i) + Granules(r.live[i].size);
  }

  datatype Op = Alloc(size: nat, mapped: nat) | Reset

  /** A request whose size arithmetic stays below 2^64, and a mapping the kernel
      could return. */
  predicate Plausible(r: Region, op: Op) {
    op.Alloc? ==>
      r.offset + op.size + 16 < SIZE_LIMIT &&
      (op.mapped != 0 ==> op.mapped % 16 == 0 && op.mapped + IDMEM_SIZE < SIZE_LIMIT)
  }

  function Mapped(r: Region, mapped: nat): Region {
    if r.base == 0 && mapped != 0 then Region(mapped, IDMEM_SIZE, 0, []) else r
  }

  /** A granted request adds one block; a refused one and a failed mapping add
      none. */
  function After(r: Region, op: Op): Region {
    match op
    case Reset => if r.base == 0 then r else r.(offset := 0, live := [])
    case Alloc(size, mapped) =>
      var m := Mapped(r, mapped);
      if m.base != 0 && 16 * (Used(m.live, |m.live|) + Granules(size)) <= m.size then
        m.(offset := m.offset + 16 * Granules(size), live := m.live + [Block(m.base + m.offset, size)])
      else m
  }

  lemma AfterGood(r: Region, op: Op)
    requires Good(r) && Plausible(r, op)
    ensures Good(After(r, op))
  {
    if op.Alloc? {
      var m := Mapped(r, op.mapped);
      var b := Block(m.base + m.offset, op.size);
      var n := After(r, op);
      UsedPrefix(m.live, b, |m.live|);
      forall i | 0 <= i < |n.live| ensures InPlace(n, i) {
        if i < |m.live| {
          UsedPrefix(m.live, b, i);
          assert InPlace(m, i);
        }
      }
    }
  }

  function Run(ops: seq<Op>): Region {
    if ops == [] then UNMAPPED else After(Run(ops[..|ops| - 1]), ops[|ops| - 1])
  }

  predicate AllPlausible(ops: seq<Op>) {
    forall n | 0 <= n < |ops| :: Plausible(Run(ops[..n]), ops[n])
  }

  /** Any run of requests and resets keeps the live blocks tiled. */
  lemma {:induction false} RunGood(ops: seq<Op>)
    requires AllPlausible(ops)
    ensures Good(Run(ops))
  {
    if ops != [] {
      var front := ops[..|ops| - 1];
      assert forall n | 0 <= n < |front| :: front[..n] == ops[..n];
      RunGood(front);
      AfterGood(Run(front), ops[|ops| - 1]);
    }
  }

  /** The sizes asked for, each rounded up to 16, added up. */
  function Rounded(sizes: seq<nat>): nat {
    if sizes == [] then 0 else Rounded(sizes[..|sizes| - 1]) + RoundUp(sizes[|sizes| - 1], 16)
  }

  /** One request after another; the mapping is granted if one is needed. */
  function Served(r: Region, sizes: seq<nat>, mapped: nat): Region {
    if sizes == [] then r
    else After(Served(r, sizes[..|sizes| - 1], mapped), Alloc(sizes[|sizes| - 1], mapped))
  }

  lemma RoundedGranules(size: nat)
    ensures RoundUp(size, 16) == 16 * Granules(size)
  {
  }

  lemma {:induction false} ServedSoFar(r: Region, sizes: seq<nat>, mapped: nat)
    requires r.live == [] && r.offset == 0 && (r.base == 0 ==> mapped != 0) && (r.base != 0 ==> r.size == IDMEM_SIZE)
    ensures var n := Served(r, sizes, mapped);
      && |n.live| <= |sizes| && (sizes != [] ==> n.base != 0 && n.size == IDMEM_SIZE)
      && (n.base == r.base || sizes != [])
      && (|n.live| == |sizes| <==> Rounded(sizes) <= 0x10_0000)
      && (|n.live| == |sizes| ==> 16 * Used(n.live, |n.live|) == Rounded(sizes))
  {
    if sizes != [] {
      var front, last := sizes[..|sizes| - 1], sizes[|sizes| - 1];
      ServedSoFar(r, front, mapped);
      RoundedGranules(last);
      var m := Mapped(Served(r, front, mapped), mapped);
      UsedPrefix(m.live, Block(m.base + m.offset, last), |m.live|);
    }
  }

  /** An arena that is new or reset serves a list of requests exactly when the
      rounded sizes come to at most one MiB. */
  lemma ServedExact(r: Region, sizes: seq<nat>, mapped: nat)
    requires Good(r) && r.live == [] && (r.base == 0 ==> mapped != 0)
    ensures |Served(r, sizes, mapped).live| == |sizes| <==> Rounded(sizes) <= 0x10_0000
  {
    ServedSoFar(r, sizes, mapped);
  }

  /** struct PBoxThreadChannel's idmem fields. */
  class Idmem {
    var base: nat
    var size: nat
    var offset: nat
    ghost var live: seq<Block>

    constructor ()
      ensures View() == UNMAPPED
    {
      base, size, offset, live := 0, 0, 0, [];
    }

    ghost function View(): Region
      reads this
    {
      Region(base, size, offset, live)
    }

    /** pbox_idmem_alloc; mapped is what pbox_mmap_identity would return. */
    method Alloc(bytes: nat, mapped: nat) returns (p: nat)
      requires Good(View()) && Plausible(View(), Op.Alloc(bytes, mapped))
      modifies this
      ensures Good(View()) && View() == After(old(View()), Op.Alloc(bytes, mapped))
      ensures p != 0 <==> |live| == |old(live)| + 1
      ensures p != 0 ==> live[|live| - 1] == Block(p, bytes)
    {
      AfterGood(View(), Op.Alloc(bytes, mapped));
      if base == 0 {
        base := mapped;
        if base == 0 {
          return 0;
        }
        size := IDMEM_SIZE;
        offset := 0;
      }
      var rounded := 16 * Granules(bytes);
      if offset + rounded > size {
        return 0;
      }
      p := base + offset;
      offset := offset + rounded;
      live := live + [Block(p, bytes)];
    }

    /** pbox_idmem_reset. */
    method Reset()
      requires Good(View())
      modifies this`offset, this`live
      ensures Good(View()) && View() == After(old(View()), Op.Reset)
    {
      if base != 0 {
        offset := 0;
        live := [];
      }
    }
  }

  /** pbox_in_idmem over the arenas of all listed channels. */
  method InIdmem(regions: seq<Region>, addr: nat, size: nat) returns (r: bool)
    requires addr + size < SIZE_LIMIT
    ensures r <==> exists i :: 0 <= i < |regions| && InRegion(regions[i], addr, size)
  {
    var end := addr + size;
    for i := 0 to |regions|
      invariant forall j | 0 <= j < i :: !InRegion(regions[j], addr, size)
    {
      if regions[i].base != 0 {
        var top := regions[i].base + regions[i].size;
        if addr >= regions[i].base && end <= top {
          return true;
        }
      }
    }
    return false;
  }

  /** All bytes of [addr, addr + size) are in the arena of region r. */
  ghost predicate AllInArena(r: Region, addr: nat, size: nat) {
    r.base != 0 && forall x | Covers(Block(addr, size), x) :: Covers(Block(r.base, r.size), x)
  }

  /** What the answer means: a range with a byte in it is accepted exactly when one
      arena holds all of it, so every live block is. */
  lemma InIdmemMeaning(regions: seq<Region>, addr: nat, size: nat)
    requires size > 0
    ensures (exists j :: 0 <= j < |regions| && InRegion(regions[j], addr, size))
       <==> exists j :: 0 <= j < |regions| && AllInArena(regions[j], addr, size)
    ensures forall k, i | 0 <= k < |regions| && Good(regions[k]) && 0 <= i < |regions[k].live| ::
              InRegion(regions[k], regions[k].live[i].addr, regions[k].live[i].size)
  {
    forall j | 0 <= j < |regions| ensures InRegion(regions[j], addr, size) <==> AllInArena(regions[j], addr, size) {
      if AllInArena(regions[j], addr, size) {
        assert Covers(Block(addr, size), addr) && Covers(Block(addr, size), addr + size - 1);
      }
    }
    forall k, i | 0 <= k < |regions| && Good(regions[k]) && 0 <= i < |regions[k].live|
      ensures InRegion(regions[k], regions[k].live[i].addr, regions[k].live[i].size)
    {
      LiveInside(regions[k], i);
    }
  }

  // ---------------------------------------------------------------------
  // The passthrough arena

  /** The live blocks lie in order below the bump offset. */
  predicate Stacked(base: nat, offset: nat, live: seq<Block>) {
    (forall i | 0 <= i < |live| ::
      base <= live[i].addr && live[i].addr + live[i].size <= base + offset &&
      live[i].addr + live[i].size <= base + HOST_ARENA_SIZE) &&
    forall i, j | 0 <= i < j < |live| :: live[i].addr + live[i].size <= live[j].addr
  }

  lemma StackedApart(base: nat, offset: nat, live: seq<Block>, i: nat, j: nat)
    requires Stacked(base, offset, live) && i < |live| && j < |live| && i != j
    ensures !Meet(live[i], live[j])
  {
  }

  class PassthroughArena {
    const base: nat
    var offset: nat
    ghost var live: seq<Block>

    /** mem is malloc's answer. */
    constructor (mem: nat)
      ensures Valid() && base == mem && offset == 0 && live == []
    {
      base, offset, live := mem, 0, [];
    }

    ghost predicate Valid()
      reads this
    {
      Stacked(base, offset, live)
    }

    /** The offset is rounded even when the request is then refused. A block is
        aligned exactly when the arena itself is. */
    method Alloc(size: nat, align: nat) returns (p: nat)
      requires Valid() && PowerOfTwo(align) && offset + align + size < SIZE_LIMIT
      modifies this
      ensures Valid()
      ensures var at := RoundUp(old(offset), align);
        if base != 0 && at + size <= 0x1_0000 then
          p == base + at && offset == at + size && live == old(live) + [Block(p, size)]
        else p == 0 && offset == at && live == old(live)
      ensures p != 0 ==> (p % align == 0 <==> base % align == 0)
    {
      offset := RoundUp(offset, align);
      if base == 0 || offset + size > HOST_ARENA_SIZE {
        return 0;
      }
      p := base + offset;
      AddMultiple(base, offset, align);
      offset := offset + size;
      live := live + [Block(p, size)];
    }

    method Reset()
      modifies this
      ensures Valid() && offset == 0 && live == []
    {
      offset, live := 0, [];
    }
  }
}
