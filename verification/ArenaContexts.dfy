/** CallContexts of one thread over its identity arena: each takes its cells from
    the arena, and destroying any of them resets it. */
module ArenaContexts {
  import opened Arena
  import A = Arena

  /** A cell and the context that got it. */
  datatype Held = Held(ctx: nat, block: Block)

  /** The arena, the open contexts, their cells from before the latest reset, and
      the contexts that got the arena's live blocks. */
  datatype Desk = Desk(region: Region, open: set<nat>, stale: seq<Held>, owners: seq<nat>)

  datatype Use = Open(ctx: nat) | Get(ctx: nat, size: nat, mapped: nat) | Close(ctx: nat) | ResetArena

  /** Each live block has its context. */
  predicate Matched(d: Desk) {
    |d.owners| == |d.region.live| && (d.region.base == 0 ==> d.region.live == [])
  }

  function Currents(owners: seq<nat>, live: seq<Block>): (r: seq<Held>)
    requires |owners| == |live|
    ensures |r| == |live|
  {
    seq(|live|, i requires 0 <= i < |live| => Held(owners[i], live[i]))
  }

  /** All cells of open contexts. */
  function Cells(d: Desk): seq<Held>
    requires Matched(d)
  {
    d.stale + Currents(d.owners, d.region.live)
  }

  /** The cells of every context but c. */
  function Without(cells: seq<Held>, c: nat): seq<Held> {
    if cells == [] then []
    else
      var rest, last := Without(cells[..|cells| - 1], c), cells[|cells| - 1];
      if last.ctx == c then rest else rest + [last]
  }

  predicate Granted(r: Region, size: nat, mapped: nat) {
    var m := Mapped(r, mapped);
    m.base != 0 && 16 * (Used(m.live, |m.live|) + Granules(size)) <= m.size
  }

  /** One use: a constructor, in, out or inout, a destructor, or a reset asked for
      by the caller. */
  function Next(d: Desk, u: Use): (n: Desk)
    requires Matched(d)
    ensures Matched(n)
  {
    match u
    case Open(c) => d.(open := d.open + {c})
    case Get(c, size, mapped) =>
      if c !in d.open then d
      else
        d.(region := A.After(d.region, Alloc(size, mapped)),
           owners := if Granted(d.region, size, mapped) then d.owners + [c] else d.owners)
    case Close(c) =>
      if c !in d.open then d
      else Cleared(d.(open := d.open - {c}), Without(Cells(d), c))
    case ResetArena => Cleared(d, Cells(d))
  }

  function Cleared(d: Desk, stale: seq<Held>): (n: Desk)
    requires Matched(d)
    ensures Matched(n)
  {
    if d.region.base == 0 then d.(stale := stale, region := UNMAPPED, owners := [])
    else d.(stale := stale, region := A.After(d.region, Reset), owners := [])
  }

  predicate OnGrid(r: Region, b: Block) {
    r.base != 0 && r.base <= b.addr && (b.addr - r.base) % 16 == 0
  }

  predicate AllOnGrid(r: Region, cells: seq<Held>) {
    forall i | 0 <= i < |cells| :: OnGrid(r, cells[i].block)
  }

  predicate Inv(d: Desk) {
    Good(d.region) && Matched(d) && AllOnGrid(d.region, d.stale)
  }

  /** The cells of open contexts share no byte. */
  ghost predicate Apart(cells: seq<Held>) {
    forall i, j | 0 <= i < j < |cells| :: !Meet(cells[i].block, cells[j].block)
  }

  /** The blocks granted since the latest reset end below every non-empty cell
      that an open context holds from before it. */
  predicate Clear(d: Desk) {
    forall i | 0 <= i < |d.stale| && d.stale[i].block.size > 0 ::
      d.region.base + d.region.offset <= d.stale[i].block.addr
  }

  predicate Fits(d: Desk, u: Use) {
    u.Get? ==> Plausible(d.region, Alloc(u.size, u.mapped))
  }

  lemma {:induction false} WithoutKeeps(cells: seq<Held>, c: nat, r: Region)
    requires AllOnGrid(r, cells)
    ensures AllOnGrid(r, Without(cells, c))
  {
    if cells != [] {
      WithoutKeeps(cells[..|cells| - 1], c, r);
    }
  }

  ghost predicate ApartFrom(cells: seq<Held>, b: Block) {
    forall i | 0 <= i < |cells| :: !Meet(cells[i].block, b)
  }

  lemma {:induction false} WithoutApartFrom(cells: seq<Held>, c: nat, b: Block)
    requires ApartFrom(cells, b)
    ensures ApartFrom(Without(cells, c), b)
  {
    if cells != [] {
      WithoutApartFrom(cells[..|cells| - 1], c, b);
    }
  }

  lemma {:induction false} WithoutApart(cells: seq<Held>, c: nat)
    requires Apart(cells)
    ensures Apart(Without(cells, c))
  {
    if cells != [] {
      var front, last := cells[..|cells| - 1], cells[|cells| - 1];
      WithoutApart(front, c);
      assert ApartFrom(front, last.block);
      WithoutApartFrom(front, c, last.block);
    }
  }

  lemma LiveOnGrid(d: Desk)
    requires Inv(d)
    ensures AllOnGrid(d.region, Cells(d))
  {
    var r := d.region;
    forall i | 0 <= i < |r.live| ensures OnGrid(r, r.live[i]) {
      assert InPlace(r, i);
      LiveInside(r, i);
    }
    forall i | 0 <= i < |Cells(d)| ensures OnGrid(r, Cells(d)[i].block) {
      if i >= |d.stale| {
        assert Cells(d)[i].block == r.live[i - |d.stale|];
      }
    }
  }

  lemma NextKeeps(d: Desk, u: Use)
    requires Inv(d) && Fits(d, u)
    ensures Inv(Next(d, u))
  {
    match u
    case Open(_) =>
    case Get(c, size, mapped) => AfterGood(d.region, Alloc(size, mapped));
    case Close(c) =>
      LiveOnGrid(d);
      WithoutKeeps(Cells(d), c, d.region);
    case ResetArena => LiveOnGrid(d);
  }

  /** The live block whose granules hold granule g. */
  lemma {:induction false} BlockAt(live: seq<Block>, n: nat, g: nat) returns (j: nat)
    requires n <= |live| && g < Used(live, n)
    ensures j < n && Used(live, j) <= g < Used(live, j + 1)
  {
    if g >= Used(live, n - 1) {
      j := n - 1;
    } else {
      j := BlockAt(live, n - 1, g);
    }
  }

  /** A block reaching past a stale cell's start covers its first byte. */
  lemma ReachedMeets(d: Desk, i: nat)
    requires Inv(d) && i < |d.stale| && d.stale[i].block.size > 0
    requires d.stale[i].block.addr < d.region.base + d.region.offset
    ensures !Apart(Cells(d))
  {
    var r, b := d.region, d.stale[i].block;
    assert OnGrid(r, b);
    var g := (b.addr - r.base) / 16;
    assert b.addr == r.base + 16 * g;
    var j := BlockAt(r.live, |r.live|, g);
    assert InPlace(r, j);
    assert Granules(r.live[j].size) > g - Used(r.live, j);
    assert Covers(b, b.addr) && Covers(r.live[j], b.addr);
    assert Meet(b, r.live[j]);
    assert Cells(d)[i].block == b && Cells(d)[|d.stale| + j].block == r.live[j];
  }

  /** A new cell clear of the stale ones is apart from all. */
  lemma GetApart(d: Desk, c: nat, size: nat, mapped: nat)
    requires Inv(d) && Fits(d, Get(c, size, mapped)) && Apart(Cells(d)) && Clear(Next(d, Get(c, size, mapped)))
    ensures Apart(Cells(Next(d, Get(c, size, mapped))))
  {
    var n := Next(d, Get(c, size, mapped));
    NextKeeps(d, Get(c, size, mapped));
    if c in d.open && Granted(d.region, size, mapped) {
      var cells, last := Cells(n), |Cells(n)| - 1;
      assert cells[..last] == Cells(d);
      forall i | 0 <= i < last ensures !Meet(cells[i].block, cells[last].block) {
        if i >= |d.stale| {
          LiveBlocks(n.region, i - |d.stale|, |n.region.live| - 1);
        } else {
          LiveInside(n.region, |n.region.live| - 1);
          assert InPlace(n.region, |n.region.live| - 1);
          assert n.region.live[|n.region.live| - 1].addr + size <= n.region.base + n.region.offset;
        }
      }
      forall i, j | 0 <= i < j < |cells| ensures !Meet(cells[i].block, cells[j].block) {
        if j < last {
          assert cells[i] == Cells(d)[i] && cells[j] == Cells(d)[j];
        }
      }
    } else {
      assert Cells(n) == Cells(d);
    }
  }

  lemma NextApart(d: Desk, u: Use)
    requires Inv(d) && Fits(d, u) && Apart(Cells(d)) && Clear(Next(d, u))
    ensures Apart(Cells(Next(d, u)))
  {
    match u
    case Open(_) => assert Cells(Next(d, u)) == Cells(d);
    case Get(c, size, mapped) => GetApart(d, c, size, mapped);
    case Close(c) =>
      if c in d.open {
        WithoutApart(Cells(d), c);
        assert Cells(Next(d, u)) == Without(Cells(d), c);
      }
    case ResetArena => assert Cells(Next(d, u)) == Cells(d);
  }

  // ---------------------------------------------------------------------
  // Whole runs

  const EMPTY: Desk := Desk(UNMAPPED, {}, [], [])

  function After(uses: seq<Use>): (d: Desk)
    ensures Matched(d)
  {
    if uses == [] then EMPTY else Next(After(uses[..|uses| - 1]), uses[|uses| - 1])
  }

  predicate AllFit(uses: seq<Use>) {
    forall n | 0 <= n < |uses| :: Fits(After(uses[..n]), uses[n])
  }

  /** At every moment of the run the cells of open contexts are apart. */
  ghost predicate AlwaysApart(uses: seq<Use>) {
    forall n | 0 <= n <= |uses| :: Apart(Cells(After(uses[..n])))
  }

  predicate AlwaysClear(uses: seq<Use>) {
    forall n | 0 <= n <= |uses| :: Clear(After(uses[..n]))
  }

  lemma {:induction false} AfterKeeps(uses: seq<Use>, n: nat)
    requires AllFit(uses) && n <= |uses|
    ensures Inv(After(uses[..n]))
  {
    if n > 0 {
      AfterKeeps(uses, n - 1);
      assert uses[..n][..n - 1] == uses[..n - 1];
      assert Fits(After(uses[..n - 1]), uses[n - 1]);
      NextKeeps(After(uses[..n - 1]), uses[n - 1]);
    }
  }

  lemma {:induction false} ClearKeepsApart(uses: seq<Use>, n: nat)
    requires AllFit(uses) && n <= |uses| && AlwaysClear(uses)
    ensures Apart(Cells(After(uses[..n])))
  {
    if n > 0 {
      ClearKeepsApart(uses, n - 1);
      AfterKeeps(uses, n - 1);
      assert uses[..n][..n - 1] == uses[..n - 1];
      assert Fits(After(uses[..n - 1]), uses[n - 1]) && Clear(After(uses[..n]));
      NextApart(After(uses[..n - 1]), uses[n - 1]);
    }
  }

  /** The cells of open contexts stay apart throughout a run exactly when what is
      granted after a reset never reaches a non-empty cell that a context still
      open holds from before it. A caller can tell from the sizes it asks for. */
  lemma ApartExact(uses: seq<Use>)
    requires AllFit(uses)
    ensures AlwaysApart(uses) <==> AlwaysClear(uses)
  {
    if AlwaysClear(uses) {
      forall n | 0 <= n <= |uses| ensures Apart(Cells(After(uses[..n]))) {
        ClearKeepsApart(uses, n);
      }
    } else {
      var n :| 0 <= n <= |uses| && !Clear(After(uses[..n]));
      var d := After(uses[..n]);
      AfterKeeps(uses, n);
      var i :| 0 <= i < |d.stale| && d.stale[i].block.size > 0 && d.stale[i].block.addr < d.region.base + d.region.offset;
      ReachedMeets(d, i);
    }
  }

  // ---------------------------------------------------------------------
  // The rule of thumb

  predicate HoldsStale(d: Desk) {
    exists i :: 0 <= i < |d.stale| && d.stale[i].block.size > 0
  }

  /** A non-empty cell is granted while an open context holds one from before the
      latest reset. */
  predicate Risky(d: Desk, u: Use) {
    u.Get? && u.ctx in d.open && u.size > 0 && Granted(d.region, u.size, u.mapped) && HoldsStale(d)
  }

  lemma UnriskyStep(d: Desk, u: Use)
    requires Inv(d) && Fits(d, u) && !Risky(d, u) && (HoldsStale(d) ==> d.region.offset == 0)
    ensures HoldsStale(Next(d, u)) ==> Next(d, u).region.offset == 0
  {
    if u.Get? && u.ctx in d.open && HoldsStale(d) {
      var i :| 0 <= i < |d.stale| && d.stale[i].block.size > 0;
      assert OnGrid(d.region, d.stale[i].block);
      assert Granted(d.region, u.size, u.mapped) ==> Granules(u.size) == 0;
    }
  }

  lemma {:induction false} UnriskyOffset(uses: seq<Use>, n: nat)
    requires AllFit(uses) && n <= |uses|
    requires forall k | 0 <= k < |uses| :: !Risky(After(uses[..k]), uses[k])
    ensures var d := After(uses[..n]); HoldsStale(d) ==> d.region.offset == 0
  {
    if n > 0 {
      UnriskyOffset(uses, n - 1);
      AfterKeeps(uses, n - 1);
      assert uses[..n][..n - 1] == uses[..n - 1];
      UnriskyStep(After(uses[..n - 1]), uses[n - 1]);
    }
  }

  /** Never granting one then is enough. */
  lemma UnriskyIsApart(uses: seq<Use>)
    requires AllFit(uses)
    requires forall k | 0 <= k < |uses| :: !Risky(After(uses[..k]), uses[k])
    ensures AlwaysApart(uses)
  {
    forall n | 0 <= n <= |uses| ensures Clear(After(uses[..n])) {
      UnriskyOffset(uses, n);
      AfterKeeps(uses, n);
      var d := After(uses[..n]);
      forall i | 0 <= i < |d.stale| && d.stale[i].block.size > 0
        ensures d.region.base + d.region.offset <= d.stale[i].block.addr
      {
        assert HoldsStale(d) && OnGrid(d.region, d.stale[i].block);
      }
    }
    ApartExact(uses);
  }

  /** It is exact for the context that got the arena's first cell: once another
      has been destroyed, the next non-empty cell lies on it. */
  lemma FirstCellClashes(d: Desk, i: nat, c: nat, size: nat, mapped: nat)
    requires Inv(d) && i < |d.stale| && d.stale[i].block.size > 0 && d.stale[i].block.addr == d.region.base
    requires c in d.open && size > 0 && Granted(d.region, size, mapped) && Fits(d, Get(c, size, mapped))
    ensures !Apart(Cells(Next(d, Get(c, size, mapped))))
  {
    var n := Next(d, Get(c, size, mapped));
    assert OnGrid(d.region, d.stale[i].block);
    NextKeeps(d, Get(c, size, mapped));
    assert Granules(size) >= 1;
    ReachedMeets(n, i);
  }

  /** A run in which context 2 got the arena's first cell, context 1 the second,
      and context 2 is gone. */
  const SECOND_CELL_LEFT: seq<Use> := [Open(1), Open(2)] + [Get(2, 16, 0x10000)] + [Get(1, 16, 0)] + [Close(2)]

  /** It is not exact for others: context 1's next cell lies below the one it
      holds. */
  lemma RiskyYetApart()
    ensures var d := After(SECOND_CELL_LEFT);
      Risky(d, Get(1, 8, 0)) && Apart(Cells(Next(d, Get(1, 8, 0))))
  {
    TwoOpen();
    FirstCell(2);
    SecondCell();
    FirstGone();
    AfterNext([Open(1), Open(2)], Get(2, 16, 0x10000));
    AfterNext([Open(1), Open(2)] + [Get(2, 16, 0x10000)], Get(1, 16, 0));
    AfterNext([Open(1), Open(2)] + [Get(2, 16, 0x10000)] + [Get(1, 16, 0)], Close(2));
    ThirdCell();
  }

  lemma AfterNext(uses: seq<Use>, u: Use)
    ensures After(uses + [u]) == Next(After(uses), u)
  {
    assert (uses + [u])[..|uses|] == uses;
  }

  /** Contexts 1 and 2 open, with n cells of 16 bytes granted. */
  function Stage(n: nat): Desk
    requires n <= 2
  {
    if n == 0 then EMPTY.(open := {1, 2})
    else if n == 1 then FirstTo(2)
    else Desk(Region(0x10000, IDMEM_SIZE, 32, [Block(0x10000, 16), Block(0x10010, 16)]), {1, 2}, [], [2, 1])
  }

  /** Contexts 1 and 2 open, with 16 bytes granted to c. */
  function FirstTo(c: nat): Desk {
    Desk(Region(0x10000, IDMEM_SIZE, 16, [Block(0x10000, 16)]), {1, 2}, [], [c])
  }

  const LEFT: Desk := Desk(Region(0x10000, IDMEM_SIZE, 0, []), {1}, [Held(1, Block(0x10010, 16))], [])

  lemma TwoOpen()
    ensures After([Open(1), Open(2)]) == Stage(0)
  {
    AfterNext([], Open(1));
    AfterNext([Open(1)], Open(2));
    assert [] + [Open(1)] == [Open(1)] && [Open(1)] + [Open(2)] == [Open(1), Open(2)];
  }

  lemma FirstCell(c: nat)
    requires c == 1 || c == 2
    ensures Next(Stage(0), Get(c, 16, 0x10000)) == FirstTo(c)
  {
    assert Used([], 0) == 0;
  }

  lemma SecondCell()
    ensures Next(Stage(1), Get(1, 16, 0)) == Stage(2)
  {
    assert Used([Block(0x10000, 16)], 1) == Used([Block(0x10000, 16)], 0) + Granules(16);
  }

  lemma FirstGone()
    ensures Next(Stage(2), Close(2)) == LEFT
  {
    var x, y := Held(2, Block(0x10000, 16)), Held(1, Block(0x10010, 16));
    assert Cells(Stage(2)) == [x, y];
    assert [x, y][..1] == [x] && [x][..0] == [];
    assert Without([x], 2) == Without([], 2) == [];
    assert Without([x, y], 2) == [y];
  }

  lemma ThirdCell()
    ensures Risky(LEFT, Get(1, 8, 0)) && Apart(Cells(Next(LEFT, Get(1, 8, 0))))
  {
    assert Used([], 0) == 0 && LEFT.stale[0].block.size > 0;
    assert Cells(Next(LEFT, Get(1, 8, 0))) == [Held(1, Block(0x10010, 16)), Held(1, Block(0x10000, 8))];
  }

  /** Destroying a context, like a reset, frees the whole arena, under every other
      context: the next cell of up to one MiB lies at its base. */
  lemma EndingFreesAll(d: Desk, c: nat, u: Use, size: nat, mapped: nat)
    requires Inv(d) && d.region.base != 0 && c in d.open && size <= 0x10_0000
    requires u == ResetArena || (u.Close? && u.ctx in d.open && u.ctx != c)
    ensures
      var n := Next(Next(d, u), Get(c, size, mapped));
      Cells(n) != [] && Cells(n)[|Cells(n)| - 1] == Held(c, Block(d.region.base, size))
  {
    var e := Next(d, u);
    assert Used(e.region.live, 0) == 0 && 16 * Granules(size) <= IDMEM_SIZE;
    var n := Next(e, Get(c, size, mapped));
    assert Cells(n) == n.stale + Currents(n.owners, n.region.live);
  }

  // ---------------------------------------------------------------------
  // Two open contexts are enough for a clash

  /** Context 1 got the arena's first cell and context 2 is gone. */
  const FIRST_CELL_LEFT: seq<Use> := [Open(1), Open(2)] + [Get(1, 16, 0x10000)] + [Close(2)]

  lemma FitsNext(uses: seq<Use>, u: Use)
    requires AllFit(uses) && Fits(After(uses), u)
    ensures AllFit(uses + [u])
  {
    var all := uses + [u];
    forall n | 0 <= n < |all| ensures Fits(After(all[..n]), all[n]) {
      if n < |uses| {
        assert all[..n] == uses[..n];
        assert Fits(After(uses[..n]), uses[n]);
      } else {
        assert all[..n] == uses;
      }
    }
  }

  lemma WithoutOther(x: Held, c: nat)
    requires x.ctx != c
    ensures Without([x], c) == [x]
  {
    assert [x][..0] == [] && Without([], c) == [];
  }

  lemma OtherGone()
    ensures Next(FirstTo(1), Close(2)) == Desk(Region(0x10000, IDMEM_SIZE, 0, []), {1}, [Held(1, Block(0x10000, 16))], [])
  {
    var x := Held(1, Block(0x10000, 16));
    assert Cells(FirstTo(1)) == [x];
    WithoutOther(x, 2);
  }

  lemma FirstCellLeft()
    ensures AllFit(FIRST_CELL_LEFT)
    ensures After(FIRST_CELL_LEFT) == Desk(Region(0x10000, IDMEM_SIZE, 0, []), {1}, [Held(1, Block(0x10000, 16))], [])
  {
    var start: seq<Use> := [Open(1), Open(2)];
    TwoOpen();
    assert AllFit(start);
    FirstCell(1);
    FitsNext(start, Get(1, 16, 0x10000));
    AfterNext(start, Get(1, 16, 0x10000));
    OtherGone();
    FitsNext(start + [Get(1, 16, 0x10000)], Close(2));
    AfterNext(start + [Get(1, 16, 0x10000)], Close(2));
  }

  /** A run of plain uses after which context 1 holds two cells on the same
      bytes: its first from before context 2 was destroyed, its second from
      after. */
  lemma ClashReachable()
    ensures var uses := FIRST_CELL_LEFT + [Get(1, 8, 0)];
      && AllFit(uses) && !AlwaysApart(uses)
      && Cells(After(uses)) == [Held(1, Block(0x10000, 16)), Held(1, Block(0x10000, 8))]
  {
    var uses := FIRST_CELL_LEFT + [Get(1, 8, 0)];
    FirstCellLeft();
    FitsNext(FIRST_CELL_LEFT, Get(1, 8, 0));
    AfterNext(FIRST_CELL_LEFT, Get(1, 8, 0));
    assert Used([], 0) == 0;
    FirstCellClashes(After(FIRST_CELL_LEFT), 0, 1, 8, 0);
    assert uses[..|uses|] == uses;
  }
}
