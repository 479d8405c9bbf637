/** The search for an address range that is free in two processes. */
module ProcMaps {
  import opened Common

  /** One line of a process's memory map: [lo, hi). */
  datatype Region = Region(lo: nat, hi: nat)

  /** Addresses and lengths wrap at 2^64. */
  const WORD: nat := 0x1_0000_0000_0000_0000
  const PAGE: nat := 4096
  const ALIGN: nat := 0x1_0000
  const SPAN: nat := 0x100_0000_0000

  const CANDIDATES: seq<nat> :=
    [0x7000_0000_0000, 0x6000_0000_0000, 0x5000_0000_0000,
     0x4000_0000_0000, 0x2000_0000_0000, 0x1000_0000_0000]

  function RoundToPages(length: nat): (r: nat)
    ensures r % PAGE == 0 && length <= r < length + PAGE
  {
    (length + PAGE - 1) / PAGE * PAGE
  }

  predicate Within(x: nat, lo: nat, hi: nat) {
    lo <= x < hi
  }

  /** Some address lies in both [addr, addr + len) and [r.lo, r.hi). */
  ghost predicate Meets(addr: nat, len: nat, r: Region) {
    exists x :: Within(x, addr, addr + len) && Within(x, r.lo, r.hi)
  }

  /** The comparison range_overlaps makes. */
  predicate Overlaps(addr: nat, len: nat, r: Region) {
    addr < r.hi && (addr + len) % WORD > r.lo
  }

  /** One that reaches or passes the end of the address space wraps. */
  lemma OverlapsWraps(addr: nat, len: nat, r: Region)
    requires 0x1_0000_0000_0000_0000 <= addr + len < 0x2_0000_0000_0000_0000
    ensures Overlaps(addr, len, r) <==> addr < r.hi && addr + len - 0x1_0000_0000_0000_0000 > r.lo
  {
  }

  /** The comparison is exact for every non-empty range that does not wrap and
      every non-empty region. */
  lemma OverlapsIsMeets(addr: nat, len: nat, r: Region)
    requires len > 0 && r.lo < r.hi && addr + len < 0x1_0000_0000_0000_0000
    ensures Overlaps(addr, len, r) <==> Meets(addr, len, r)
  {
    if Overlaps(addr, len, r) {
      var x := if addr < r.lo then r.lo else addr;
      assert Within(x, addr, addr + len) && Within(x, r.lo, r.hi);
    }
  }

  ghost predicate Clear(addr: nat, len: nat, rs: seq<Region>) {
    forall r | r in rs :: !Overlaps(addr, len, r)
  }

  method RangeOverlaps(addr: nat, len: nat, rs: seq<Region>) returns (found: bool)
    ensures found <==> !Clear(addr, len, rs)
  {
    for i := 0 to |rs|
      invariant forall k | 0 <= k < i :: !Overlaps(addr, len, rs[k])
    {
      if Overlaps(addr, len, rs[i]) {
        return true;
      }
    }
    return false;
  }

  /** Position k of candidate c on the search grid. */
  function Grid(c: nat, k: nat): nat
    requires c < |CANDIDATES|
  {
    CANDIDATES[c] + k * ALIGN
  }

  lemma GridAligned(c: nat, k: nat)
    requires c < |CANDIDATES|
    ensures Grid(c, k) % ALIGN == 0
  {
    var a := Grid(c, k);
    var q := CANDIDATES[c] / ALIGN;
    assert CANDIDATES[c] == q * ALIGN;
    assert a == (q + k) * ALIGN;
  }

  const STEPS: nat := SPAN / ALIGN

  /** addr lies in the TiB from base. */
  predicate InWindow(addr: nat, base: nat) {
    base <= addr < base + 0x100_0000_0000
  }

  function Window(c: nat): nat
    requires c < 6
  {
    [0x7000_0000_0000, 0x6000_0000_0000, 0x5000_0000_0000, 0x4000_0000_0000, 0x2000_0000_0000, 0x1000_0000_0000][c]
  }

  /** The addresses tried are those at a multiple of 64 KiB in six windows of one
      TiB, each window in ascending order. */
  lemma GridExact(c: nat, addr: nat)
    requires c < 6
    ensures |CANDIDATES| == 6
    ensures (exists k :: 0 <= k < STEPS && addr == Grid(c, k)) <==> InWindow(addr, Window(c)) && addr % 0x1_0000 == 0
    ensures forall k, l | 0 <= k < l < STEPS :: Grid(c, k) < Grid(c, l)
  {
    if k :| 0 <= k < STEPS && addr == Grid(c, k) {
      GridAligned(c, k);
    }
    if InWindow(addr, Window(c)) && addr % 0x1_0000 == 0 {
      assert addr == Grid(c, (addr - Window(c)) / 0x1_0000);
    }
  }

  ghost predicate FreeInBoth(addr: nat, len: nat, rs1: seq<Region>, rs2: seq<Region>) {
    Clear(addr, len, rs1) && Clear(addr, len, rs2)
  }

  /** Nothing before position k of candidate c is free in both. */
  ghost predicate NoneBefore(c: nat, k: nat, len: nat, rs1: seq<Region>, rs2: seq<Region>)
    requires c <= |CANDIDATES|
  {
    (forall c', k' | 0 <= c' < c && 0 <= k' < STEPS :: !FreeInBoth(Grid(c', k'), len, rs1, rs2)) &&
    (c < |CANDIDATES| ==> forall k' | 0 <= k' < k :: !FreeInBoth(Grid(c, k'), len, rs1, rs2))
  }

  /** pbox_find_common_free_address over two parsed maps; None is an unreadable
      map on the way in and NULL on the way out. The result is the first grid
      address whose page-rounded range is clear in both maps; NULL from two
      readable maps means that no grid address is. */
  method FindCommonFreeAddress(maps1: Option<seq<Region>>, maps2: Option<seq<Region>>, length: nat)
    returns (result: Option<nat>)
    requires length < WORD
    ensures maps1.None? || maps2.None? ==> result == None
    ensures maps1.Some? && maps2.Some? ==>
              var len := RoundToPages(length) % WORD;
              match result
              case Some(addr) =>
                && addr % ALIGN == 0 && FreeInBoth(addr, len, maps1.value, maps2.value)
                && exists c, k | 0 <= c < |CANDIDATES| && 0 <= k < STEPS ::
                     addr == Grid(c, k) && NoneBefore(c, k, len, maps1.value, maps2.value)
              case None => NoneBefore(|CANDIDATES|, 0, len, maps1.value, maps2.value)
  {
    if maps1.None? || maps2.None? {
      return None;
    }
    var rs1, rs2 := maps1.value, maps2.value;
    var len := RoundToPages(length) % WORD;
    for c := 0 to |CANDIDATES|
      invariant NoneBefore(c, 0, len, rs1, rs2)
    {
      var base := CANDIDATES[c];
      var offset := 0;
      ghost var k := 0;
      while offset < SPAN
        invariant offset == k * ALIGN && k <= STEPS
        invariant NoneBefore(c, k, len, rs1, rs2)
      {
        var addr := base + offset;
        assert addr == Grid(c, k);
        var hit1 := RangeOverlaps(addr, len, rs1);
        if !hit1 {
          var hit2 := RangeOverlaps(addr, len, rs2);
          if !hit2 {
            GridAligned(c, k);
            return Some(addr);
          }
        }
        offset := offset + ALIGN;
        k := k + 1;
      }
    }
    return None;
  }

  /** A grid address found free shares no byte with any mapping of either
      process, for every non-empty request and well-formed maps. */
  lemma FoundIsUsable(addr: nat, length: nat, rs1: seq<Region>, rs2: seq<Region>, r: Region, x: nat)
    requires length > 0 && addr + RoundToPages(length) < WORD && FreeInBoth(addr, RoundToPages(length), rs1, rs2)
    requires r in rs1 + rs2 && r.lo < r.hi && r.lo <= x < r.hi
    ensures x < addr || addr + RoundToPages(length) <= x
  {
    OverlapsIsMeets(addr, RoundToPages(length), r);
    assert Within(x, r.lo, r.hi);
  }
}
