/** The host-to-sandbox descriptor cache: a direct table for small descriptors
    and a growing, swap-removed vector for the rest. */
module FdCache {
  import opened Common

  datatype Entry = Entry(hostFd: int, sandboxFd: int)

  const DIRECT_MAX: nat := 128

  // ---------------------------------------------------------------------
  // The map both tables stand for

  function DirectMap(direct: seq<int>): map<int, int> {
    map h | 0 <= h < |direct| && direct[h] >= 0 :: direct[h]
  }

  function OverflowMap(over: seq<Entry>): map<int, int> {
    if over == [] then map[]
    else OverflowMap(over[..|over| - 1])[over[|over| - 1].hostFd := over[|over| - 1].sandboxFd]
  }

  /** Host keys are unique, in range, and never cached as "not found". */
  predicate WellFormed(direct: seq<int>, over: seq<Entry>) {
    |direct| == DIRECT_MAX &&
    (forall i | 0 <= i < |over| :: over[i].hostFd >= DIRECT_MAX && over[i].sandboxFd >= 0) &&
    UniqueHosts(over)
  }

  function Mapping(direct: seq<int>, over: seq<Entry>): map<int, int> {
    DirectMap(direct) + OverflowMap(over)
  }

  predicate Injective(m: map<int, int>) {
    forall g, h | g in m && h in m && g != h :: m[g] != m[h]
  }

  predicate UniqueHosts(over: seq<Entry>) {
    forall i, j | 0 <= i < j < |over| :: over[i].hostFd != over[j].hostFd
  }

  lemma {:induction false} OverflowAt(over: seq<Entry>, i: nat)
    requires UniqueHosts(over) && i < |over|
    ensures over[i].hostFd in OverflowMap(over) && OverflowMap(over)[over[i].hostFd] == over[i].sandboxFd
    decreases |over|
  {
    if i < |over| - 1 {
      OverflowAt(over[..|over| - 1], i);
    }
  }

  lemma {:induction false} OverflowFrom(over: seq<Entry>, h: int) returns (i: nat)
    requires UniqueHosts(over) && h in OverflowMap(over)
    ensures i < |over| && over[i] == Entry(h, OverflowMap(over)[h])
    decreases |over|
  {
    if h == over[|over| - 1].hostFd {
      i := |over| - 1;
    } else {
      i := OverflowFrom(over[..|over| - 1], h);
    }
  }

  lemma SwapRemoveUnique(direct: seq<int>, over: seq<Entry>, i: nat)
    requires WellFormed(direct, over) && i < |over|
    ensures WellFormed(direct, SwapRemove(over, i))
  {
    SwapRemoveAt(over, i);
  }

  lemma SwapRemoveDeletes(direct: seq<int>, over: seq<Entry>, i: nat)
    requires WellFormed(direct, over) && i < |over|
    ensures OverflowMap(SwapRemove(over, i)) == OverflowMap(over) - {over[i].hostFd}
  {
    var rest, m := SwapRemove(over, i), OverflowMap(over) - {over[i].hostFd};
    forall h | h in OverflowMap(rest) ensures h in m && m[h] == OverflowMap(rest)[h] {
      SwapRemoveOld(direct, over, i, h);
    }
    forall h | h in m ensures h in OverflowMap(rest) {
      SwapRemoveStill(direct, over, i, h);
    }
  }

  lemma SwapRemoveOld(direct: seq<int>, over: seq<Entry>, i: nat, h: int)
    requires WellFormed(direct, over) && i < |over| && h in OverflowMap(SwapRemove(over, i))
    ensures h != over[i].hostFd && h in OverflowMap(over) && OverflowMap(over)[h] == OverflowMap(SwapRemove(over, i))[h]
  {
    SwapRemoveUnique(direct, over, i);
    var k := OverflowFrom(SwapRemove(over, i), h);
    OverflowAt(over, if k == i then |over| - 1 else k);
  }

  lemma SwapRemoveStill(direct: seq<int>, over: seq<Entry>, i: nat, h: int)
    requires WellFormed(direct, over) && i < |over| && h in OverflowMap(over) && h != over[i].hostFd
    ensures h in OverflowMap(SwapRemove(over, i))
  {
    SwapRemoveUnique(direct, over, i);
    var k := OverflowFrom(over, h);
    OverflowAt(SwapRemove(over, i), if k == |over| - 1 then i else k);
  }

  /** Which table a host descriptor is looked up in. */
  lemma TablesApart(direct: seq<int>, over: seq<Entry>, h: int)
    requires WellFormed(direct, over)
    ensures h in DirectMap(direct) ==> 0 <= h < DIRECT_MAX
    ensures h in OverflowMap(over) ==> h >= DIRECT_MAX
  {
    if h in OverflowMap(over) {
      var i := OverflowFrom(over, h);
    }
  }

  /** The first table position, in scan order, that holds sandboxFd. */
  datatype Hit = Direct(i: nat) | Overflow(i: nat) | Miss

  predicate IsFirst(direct: seq<int>, over: seq<Entry>, sandboxFd: int, hit: Hit) {
    match hit
    case Direct(i) => i < |direct| && direct[i] == sandboxFd && sandboxFd !in direct[..i]
    case Overflow(i) =>
      i < |over| && over[i].sandboxFd == sandboxFd && sandboxFd !in direct &&
      forall k | 0 <= k < i :: over[k].sandboxFd != sandboxFd
    case Miss => sandboxFd !in direct && forall k | 0 <= k < |over| :: over[k].sandboxFd != sandboxFd
  }

  function HostOf(over: seq<Entry>, hit: Hit): int {
    match hit
    case Direct(i) => i
    case Overflow(i) => if i < |over| then over[i].hostFd else -1
    case Miss => -1
  }

  /** A miss in both tables means the descriptor is no value of the map; a hit
      names a host key that maps to it. */
  lemma HitMeaning(direct: seq<int>, over: seq<Entry>, sandboxFd: int, hit: Hit)
    requires WellFormed(direct, over) && sandboxFd >= 0 && IsFirst(direct, over, sandboxFd, hit)
    ensures hit.Miss? <==> sandboxFd !in Mapping(direct, over).Values
    ensures !hit.Miss? ==> HostOf(over, hit) in Mapping(direct, over) &&
                           Mapping(direct, over)[HostOf(over, hit)] == sandboxFd
  {
    var m := Mapping(direct, over);
    if hit.Miss? {
      forall h | h in m ensures m[h] != sandboxFd {
        if h in OverflowMap(over) {
          var k := OverflowFrom(over, h);
        }
      }
    } else {
      var h := HostOf(over, hit);
      TablesApart(direct, over, h);
      if hit.Overflow? {
        OverflowAt(over, hit.i);
      }
      assert h in m && m[h] == sandboxFd;
    }
  }

  // ---------------------------------------------------------------------
  // Cached descriptors against the open ones

  /** The host descriptors cached for s. */
  function KeysOf(m: map<int, int>, s: int): set<int> {
    set h | h in m && m[h] == s
  }

  /** The cache against the sandbox: a descriptor is cached at most once while it
      is open, and once more for each close of it that has not come to uncaching
      it yet. */
  ghost predicate Counted(m: map<int, int>, open: map<int, int>, closing: multiset<int>) {
    forall s :: |KeysOf(m, s)| <= closing[s] + if s in open then 1 else 0
  }

  lemma KeysAdded(m: map<int, int>, h: int, s: int, r: int)
    requires h !in m
    ensures KeysOf(m[h := s], r) == if r == s then KeysOf(m, r) + {h} else KeysOf(m, r)
    ensures h !in KeysOf(m, r)
  {
  }

  lemma SentCounts(m: map<int, int>, open: map<int, int>, closing: multiset<int>, h: int, s: int)
    requires Counted(m, open, closing) && h !in m && s !in open
    ensures Counted(m[h := s], open[s := h], closing) && Counted(m, open[s := h], closing)
  {
    forall r ensures |KeysOf(m[h := s], r)| <= closing[r] + if r in open[s := h] then 1 else 0 {
      KeysAdded(m, h, s, r);
      assert |KeysOf(m, r)| <= closing[r] + if r in open then 1 else 0;
    }
    forall r ensures |KeysOf(m, r)| <= closing[r] + if r in open[s := h] then 1 else 0 {
      assert |KeysOf(m, r)| <= closing[r] + if r in open then 1 else 0;
    }
  }

  lemma ClosedCounts(m: map<int, int>, open: map<int, int>, closing: multiset<int>, s: int)
    requires Counted(m, open, closing) && s in open
    ensures Counted(m, open - {s}, closing + multiset{s})
  {
    forall r ensures |KeysOf(m, r)| <= (closing + multiset{s})[r] + if r in open - {s} then 1 else 0 {
      assert |KeysOf(m, r)| <= closing[r] + if r in open then 1 else 0;
    }
  }

  /** Uncaching takes one key of s away if there is one. */
  lemma UncachedCounts(m: map<int, int>, open: map<int, int>, closing: multiset<int>, s: int, h: int)
    requires Counted(m, open, closing) && s in closing
    requires if KeysOf(m, s) == {} then h !in m else h in m && m[h] == s
    ensures Counted(m - {h}, open, closing - multiset{s})
  {
    forall r ensures |KeysOf(m - {h}, r)| <= (closing - multiset{s})[r] + if r in open then 1 else 0 {
      assert |KeysOf(m, r)| <= closing[r] + if r in open then 1 else 0;
      assert KeysOf(m - {h}, r) == if r == s then KeysOf(m, r) - {h} else KeysOf(m, r);
    }
  }

  /** A cached descriptor that is not open is being closed. */
  lemma StaleIsClosing(m: map<int, int>, open: map<int, int>, closing: multiset<int>, h: int)
    requires Counted(m, open, closing) && h in m && m[h] !in open
    ensures m[h] in closing
  {
    assert h in KeysOf(m, m[h]);
    assert |KeysOf(m, m[h])| <= closing[m[h]];
  }

  /** With no close under way the cache is injective and all it holds is open. */
  lemma QuietIsInjective(m: map<int, int>, open: map<int, int>)
    requires Counted(m, open, multiset{})
    ensures Injective(m) && m.Values <= open.Keys
  {
    forall g, h | g in m && h in m && g != h ensures m[g] != m[h] {
      if m[g] == m[h] {
        assert {g, h} <= KeysOf(m, m[g]);
        SubsetSize({g, h}, KeysOf(m, m[g]));
      }
    }
    forall h | h in m ensures m[h] in open {
      if m[h] !in open { StaleIsClosing(m, open, multiset{}, h); }
    }
  }

  lemma SubsetSize(a: set<int>, b: set<int>)
    requires a <= b
    ensures |a| <= |b|
  {
    assert b == a + (b - a);
  }

  /** A lookup of k finds an open descriptor of k's own file. */
  predicate Right(m: map<int, int>, open: map<int, int>, k: int) {
    k in m && m[k] in open && open[m[k]] == k
  }

  /** A pbox_send_fd by some thread. received is what the sandbox would report,
      which the kernel never lets be an open descriptor. */
  datatype Request = Request(fd: int, channel: bool, received: int, grows: bool)

  class Cache {
    const fdDirect: array<int>
    var fdOverflow: array<Entry>
    var count: nat
    /** Descriptors open in the sandbox, and the host descriptor each was sent for. */
    var open: map<int, int>
    /** Descriptors closed in the sandbox by threads yet to uncache them. */
    var closing: multiset<int>

    constructor ()
      ensures Valid() && View() == map[] && open == map[] && closing == multiset{}
      ensures fresh(fdDirect) && fresh(fdOverflow)
    {
      fdDirect := new int[DIRECT_MAX](_ => -1);
      fdOverflow := new Entry[0];
      count, open, closing := 0, map[], multiset{};
      new;
      assert forall s :: KeysOf(View(), s) == {};
    }

    ghost predicate Tables()
      reads this, fdDirect, fdOverflow
    {
      count <= fdOverflow.Length && WellFormed(fdDirect[..], fdOverflow[..count])
    }

    ghost predicate Valid()
      reads this, fdDirect, fdOverflow
    {
      Tables() && Counted(View(), open, closing)
    }

    ghost function View(): map<int, int>
      reads this, fdDirect, fdOverflow
      requires count <= fdOverflow.Length
    {
      Mapping(fdDirect[..], fdOverflow[..count])
    }

    /** pbox_lookup_fd. */
    method Lookup(hostFd: int) returns (r: int)
      requires Tables() && hostFd >= 0
      ensures hostFd in View() ==> r == View()[hostFd] >= 0
      ensures hostFd !in View() ==> r < 0
    {
      TablesApart(fdDirect[..], fdOverflow[..count], hostFd);
      if hostFd < DIRECT_MAX {
        return fdDirect[hostFd];
      }
      ghost var over := fdOverflow[..count];
      for i := 0 to count
        invariant forall k | 0 <= k < i :: over[k].hostFd != hostFd
      {
        if fdOverflow[i].hostFd == hostFd {
          OverflowAt(over, i);
          return fdOverflow[i].sandboxFd;
        }
      }
      if hostFd in OverflowMap(over) {
        var k := OverflowFrom(over, hostFd);
      }
      return -1;
    }

    /** realloc of the full overflow vector to twice its size, from 8. */
    method Grow()
      requires count == fdOverflow.Length
      modifies this`fdOverflow
      ensures fresh(fdOverflow) && fdOverflow.Length > count && fdOverflow[..count] == old(fdOverflow[..count])
    {
      var newCap := if fdOverflow.Length == 0 then 8 else fdOverflow.Length * 2;
      var vec := new Entry[newCap](_ => Entry(0, 0));
      forall i | 0 <= i < count { vec[i] := fdOverflow[i]; }
      fdOverflow := vec;
    }

    method PushOverflow(hostFd: int, sandboxFd: int)
      requires count < fdOverflow.Length && Tables()
      requires hostFd >= DIRECT_MAX && sandboxFd >= 0 && hostFd !in View()
      modifies this`count, fdOverflow
      ensures Tables() && fdOverflow[..count] == old(fdOverflow[..count]) + [Entry(hostFd, sandboxFd)]
      ensures View() == old(View())[hostFd := sandboxFd]
    {
      OverflowPush(fdDirect[..], fdOverflow[..count], hostFd, sandboxFd);
      ghost var over := fdOverflow[..count];
      fdOverflow[count] := Entry(hostFd, sandboxFd);
      count := count + 1;
      assert fdOverflow[..count] == over + [Entry(hostFd, sandboxFd)];
    }

    /** pbox_cache_fd; grows says whether realloc would succeed. */
    method CacheFd(hostFd: int, sandboxFd: int, grows: bool)
      requires Tables() && hostFd >= 0 && sandboxFd >= 0 && hostFd !in View()
      modifies this`fdOverflow, this`count, fdDirect, fdOverflow
      ensures fresh(fdOverflow) || fdOverflow == old(fdOverflow)
      ensures Tables() && old(fdOverflow[..count]) <= fdOverflow[..count]
      ensures var room := hostFd < DIRECT_MAX || old(count < fdOverflow.Length) || grows;
              View() == if room then old(View())[hostFd := sandboxFd] else old(View())
    {
      if hostFd < DIRECT_MAX {
        DirectSet(fdDirect[..], fdOverflow[..count], hostFd, sandboxFd);
        fdDirect[hostFd] := sandboxFd;
        return;
      }
      if count >= fdOverflow.Length {
        if !grows {
          return;
        }
        Grow();
      }
      PushOverflow(hostFd, sandboxFd);
    }

    /** pbox_uncache_fd. */
    method UncacheFd(sandboxFd: int) returns (ghost hit: Hit)
      requires Tables() && sandboxFd >= 0
      modifies this`count, fdDirect, fdOverflow
      ensures Tables()
      ensures IsFirst(old(fdDirect[..]), old(fdOverflow[..count]), sandboxFd, hit)
      ensures View() == old(View()) - {HostOf(old(fdOverflow[..count]), hit)}
    {
      ghost var over := fdOverflow[..count];
      for i := 0 to DIRECT_MAX
        invariant sandboxFd !in fdDirect[..i]
      {
        if fdDirect[i] == sandboxFd {
          DirectClear(fdDirect[..], over, i);
          fdDirect[i] := -1;
          return Direct(i);
        }
      }
      assert fdDirect[..DIRECT_MAX] == fdDirect[..];
      for i := 0 to count
        invariant forall k | 0 <= k < i :: over[k].sandboxFd != sandboxFd
      {
        if fdOverflow[i].sandboxFd == sandboxFd {
          SwapRemoveUnique(fdDirect[..], over, i);
          SwapRemoveView(fdDirect[..], over, i);
          count := count - 1;
          fdOverflow[i] := fdOverflow[count];
          assert fdOverflow[..count] == SwapRemove(over, i);
          return Overflow(i);
        }
      }
      MissView(fdDirect[..], over);
      return Miss;
    }

    /** pbox_send_fd. channel says whether the thread has a channel, received is
        the descriptor the sandbox reports (negative on failure). */
    method SendFd(fd: int, channel: bool, received: int, grows: bool) returns (r: int)
      requires Valid() && (received >= 0 ==> received !in open)
      modifies this`fdOverflow, this`count, this`open, fdDirect, fdOverflow
      ensures Valid() && (fresh(fdOverflow) || fdOverflow == old(fdOverflow))
      ensures fd < 0 ==> r == fd
      ensures fd in old(View()) ==> r == old(View())[fd]
      ensures fd >= 0 && fd !in old(View()) ==> r == if channel then received else -1
      ensures var sent := fd >= 0 && fd !in old(View()) && channel && received >= 0;
              var room := fd < DIRECT_MAX || old(count < fdOverflow.Length) || grows;
              && open == (if sent then old(open)[received := fd] else old(open))
              && View() == if sent && room then old(View())[fd := received] else old(View())
      ensures old(fdOverflow[..count]) <= fdOverflow[..count]
    {
      KeysAreFds(fdDirect[..], fdOverflow[..count]);
      if fd < 0 {
        return fd;
      }
      var cached := Lookup(fd);
      if cached >= 0 {
        return cached;
      }
      if !channel {
        return -1;
      }
      if received >= 0 {
        SentCounts(View(), open, closing, fd, received);
        open := open[received := fd];
        CacheFd(fd, received, grows);
      }
      return received;
    }

    /** pbox_close up to the answer of the sandbox's close, which is 0 only for an
        open descriptor. */
    method CloseInSandbox(sandboxFd: int, hasClose: bool, result: int) returns (r: int)
      requires Valid() && (result == 0 ==> sandboxFd in open)
      modifies this`open, this`closing
      ensures Valid() && r == if hasClose && sandboxFd >= 0 then result else -1
      ensures r != 0 ==> open == old(open) && closing == old(closing)
      ensures r == 0 ==> open == old(open) - {sandboxFd} && closing == old(closing) + multiset{sandboxFd}
    {
      if !hasClose || sandboxFd < 0 {
        return -1;
      }
      r := result;
      if result == 0 {
        ClosedCounts(View(), open, closing, sandboxFd);
        open := open - {sandboxFd};
        closing := closing + multiset{sandboxFd};
      }
    }

    /** The rest of a successful pbox_close. */
    method FinishClose(sandboxFd: int) returns (ghost hit: Hit)
      requires Valid() && sandboxFd in closing && sandboxFd >= 0
      modifies this`count, this`closing, fdDirect, fdOverflow
      ensures Valid() && closing == old(closing) - multiset{sandboxFd}
      ensures IsFirst(old(fdDirect[..]), old(fdOverflow[..count]), sandboxFd, hit)
      ensures View() == old(View()) - {HostOf(old(fdOverflow[..count]), hit)}
    {
      ghost var direct, over := fdDirect[..], fdOverflow[..count];
      hit := UncacheFd(sandboxFd);
      HitMeaning(direct, over, sandboxFd, hit);
      KeysAreFds(direct, over);
      HitCounts(Mapping(direct, over), sandboxFd, HostOf(over, hit), hit.Miss?);
      UncachedCounts(Mapping(direct, over), open, closing, sandboxFd, HostOf(over, hit));
      closing := closing - multiset{sandboxFd};
    }

    /** pbox_close with nothing in between and no other close under way. */
    method Close(sandboxFd: int, hasClose: bool, result: int) returns (r: int)
      requires Valid() && closing == multiset{} && (result == 0 ==> sandboxFd in open)
      modifies this, fdDirect, fdOverflow
      ensures Valid() && closing == multiset{}
      ensures r == if hasClose && sandboxFd >= 0 then result else -1
      ensures r != 0 ==> View() == old(View()) && open == old(open)
      ensures r == 0 ==> open == old(open) - {sandboxFd} &&
                         View() == map h | h in old(View()) && old(View())[h] != sandboxFd :: old(View())[h]
    {
      QuietIsInjective(View(), open);
      r := CloseInSandbox(sandboxFd, hasClose, result);
      if r == 0 {
        ghost var direct, over := fdDirect[..], fdOverflow[..count];
        ghost var hit := FinishClose(sandboxFd);
        KeysAreFds(direct, over);
        HitMeaning(direct, over, sandboxFd, hit);
        UncachedView(Mapping(direct, over), HostOf(over, hit), sandboxFd, hit.Miss?);
      }
    }
  }

  /** One send of another thread while s is between close and uncaching. */
  method SendInWindow(cache: Cache, req: Request, ghost s: int, ghost h: int, ghost stale: bool) returns (r: int)
    requires cache.Valid() && InWindow(cache.View(), cache.open, s, h, stale)
    modifies cache`fdOverflow, cache`count, cache`open, cache.fdDirect, cache.fdOverflow
    ensures cache.Valid() && InWindow(cache.View(), cache.open, s, h, stale)
    ensures fresh(cache.fdOverflow) || cache.fdOverflow == old(cache.fdOverflow)
    ensures old(cache.fdOverflow[..cache.count]) <= cache.fdOverflow[..cache.count]
    ensures forall k | k in old(cache.open) :: k in cache.open && cache.open[k] == old(cache.open)[k]
    ensures Finds(req, r, cache.open, s, h, stale)
  {
    var received := if req.received in cache.open then -1 else req.received;
    r := cache.SendFd(req.fd, req.channel, received, req.grows);
    if req.fd >= 0 && req.fd !in old(cache.View()) && req.channel && received >= 0 {
      SentInWindow(old(cache.View()), old(cache.open), cache.View(), req.fd, received, s, h, stale);
    } else if req.fd in old(cache.View()) {
      CachedInWindow(old(cache.View()), old(cache.open), req, s, h, stale);
    }
  }

  lemma SentInWindow(m: map<int, int>, open: map<int, int>, m': map<int, int>, fd: int, r: int, s: int, h: int, stale: bool)
    requires InWindow(m, open, s, h, stale) && fd >= 0 && fd !in m && r !in open
    requires m' == m[fd := r] || (m' == m && fd >= DIRECT_MAX)
    ensures InWindow(m', open[r := fd], s, h, stale)
  {
    forall k | k in m' && !(stale && k == h) ensures Right(m', open[r := fd], k) {
      if k != fd {
        assert Right(m, open, k);
      }
    }
  }

  lemma CachedInWindow(m: map<int, int>, open: map<int, int>, req: Request, s: int, h: int, stale: bool)
    requires InWindow(m, open, s, h, stale) && req.fd in m
    ensures Finds(req, m[req.fd], open, s, h, stale)
  {
    if !(stale && req.fd == h) {
      assert Right(m, open, req.fd);
    }
  }

  /** What a send answers during the window: for h the closed descriptor, for
      every other descriptor one that is open for its own file. */
  predicate Finds(req: Request, r: int, open: map<int, int>, s: int, h: int, stale: bool) {
    req.fd >= 0 && r >= 0 ==>
      if stale && req.fd == h then r == s else r in open && open[r] == req.fd
  }

  method SendsInWindow(cache: Cache, sends: seq<Request>, ghost s: int, ghost h: int, ghost stale: bool, ghost past: seq<Entry>)
    returns (rs: seq<int>)
    requires cache.Valid() && InWindow(cache.View(), cache.open, s, h, stale) && past <= cache.fdOverflow[..cache.count]
    modifies cache`fdOverflow, cache`count, cache`open, cache.fdDirect, cache.fdOverflow
    ensures cache.Valid() && InWindow(cache.View(), cache.open, s, h, stale) && past <= cache.fdOverflow[..cache.count]
    ensures fresh(cache.fdOverflow) || cache.fdOverflow == old(cache.fdOverflow)
    ensures |rs| == |sends| && forall i | 0 <= i < |sends| :: Finds(sends[i], rs[i], cache.open, s, h, stale)
  {
    rs := [];
    for i := 0 to |sends|
      invariant cache.Valid() && |rs| == i
      invariant fresh(cache.fdOverflow) || cache.fdOverflow == old(cache.fdOverflow)
      invariant InWindow(cache.View(), cache.open, s, h, stale) && past <= cache.fdOverflow[..cache.count]
      invariant forall j | 0 <= j < i :: Finds(sends[j], rs[j], cache.open, s, h, stale)
    {
      ghost var open := cache.open;
      var r := SendInWindow(cache, sends[i], s, h, stale);
      forall j | 0 <= j < i ensures Finds(sends[j], rs[j], cache.open, s, h, stale) {
        FindsStays(sends[j], rs[j], open, cache.open, s, h, stale);
      }
      rs := rs + [r];
    }
  }

  lemma FindsStays(req: Request, r: int, open: map<int, int>, open': map<int, int>, s: int, h: int, stale: bool)
    requires Finds(req, r, open, s, h, stale) && forall k | k in open :: k in open' && open'[k] == open[k]
    ensures Finds(req, r, open', s, h, stale)
  {
  }

  lemma WindowBegins(m: map<int, int>, open: map<int, int>, s: int)
    requires AllRight(m, open) && s in open && forall r | r in open :: open[r] >= 0
    ensures var h := open[s]; InWindow(m, open - {s}, s, h, h in m && m[h] == s)
  {
    var h := open[s];
    forall k | k in m && !(h in m && m[h] == s && k == h) ensures Right(m, open - {s}, k) {
      assert Right(m, open, k);
    }
  }

  /** pbox_close of s while other threads send: between the two halves exactly the
      lookups of the host descriptor cached for s give a descriptor that is not
      its own; afterwards every entry is right again, but for that one when s was
      handed out again for a descriptor below it in the direct table. */
  method CloseAmid(cache: Cache, s: int, sends: seq<Request>) returns (rs: seq<int>)
    requires cache.Valid() && cache.closing == multiset{} && s >= 0 && s in cache.open
    requires AllRight(cache.View(), cache.open) && forall r | r in cache.open :: cache.open[r] >= 0
    modifies cache, cache.fdDirect, cache.fdOverflow
    ensures cache.Valid() && cache.closing == multiset{}
    ensures
      var h := old(cache.open)[s];
      var stale := h in old(cache.View()) && old(cache.View())[h] == s;
      && |rs| == |sends|
      && (forall i | 0 <= i < |sends| :: Finds(sends[i], rs[i], cache.open, s, h, stale))
      && (forall k | k in cache.View() && k != h :: Right(cache.View(), cache.open, k))
      && (h in cache.View() && !Right(cache.View(), cache.open, h)
          <==> stale && s in cache.open && cache.open[s] < DIRECT_MAX && cache.open[s] < h)
  {
    ghost var h := cache.open[s];
    ghost var stale := h in cache.View() && cache.View()[h] == s;
    ghost var past := cache.fdOverflow[..cache.count];
    BeforeWindow(cache.fdDirect[..], past, cache.open, s);
    WindowBegins(cache.View(), cache.open, s);
    var closed := cache.CloseInSandbox(s, true, 0);
    rs := SendsInWindow(cache, sends, s, h, stale, past);
    ghost var direct, over := cache.fdDirect[..], cache.fdOverflow[..cache.count];
    ghost var hit := cache.FinishClose(s);
    WindowEnds(direct, over, past, cache.open, s, h, stale, hit);
  }

  lemma WindowEnds(direct: seq<int>, over: seq<Entry>, past: seq<Entry>, open: map<int, int>, s: int, h: int, stale: bool, hit: Hit)
    requires WellFormed(direct, over) && past <= over && Before(past, s, h, stale) && s >= 0
    requires InWindow(Mapping(direct, over), open, s, h, stale) && IsFirst(direct, over, s, hit)
    ensures var m := Mapping(direct, over) - {HostOf(over, hit)};
      (forall k | k in m && k != h :: Right(m, open, k)) &&
      (h in m && !Right(m, open, h) <==> stale && s in open && open[s] < DIRECT_MAX && open[s] < h)
  {
    var m, x := Mapping(direct, over), HostOf(over, hit);
    if stale {
      CloseWindow(direct, over, past, open, s, h, hit);
    }
    forall k | k in m - {x} && k != h ensures Right(m - {x}, open, k) {
      assert Right(m, open, k);
    }
    if !stale && h in m {
      assert Right(m, open, h);
    }
  }

  /** From a new cache s is sent for f, closed in the sandbox and handed out again
      for g; past is the overflow vector before that. */
  method SentAgain(f: int, g: int, s: int) returns (cache: Cache, ghost past: seq<Entry>)
    requires f >= 0 && g >= 0 && s >= 0 && f != g
    ensures fresh(cache) && fresh(cache.fdDirect) && fresh(cache.fdOverflow) && cache.Valid()
    ensures cache.View() == map[f := s, g := s] && cache.open == map[s := g] && cache.closing == multiset{s}
    ensures past <= cache.fdOverflow[..cache.count] && Before(past, s, f, true)
  {
    cache := new Cache();
    var sent := cache.SendFd(f, true, s, true);
    assert cache.View() == map[f := s] && cache.open == map[s := f];
    past := cache.fdOverflow[..cache.count];
    BeforeWindow(cache.fdDirect[..], past, cache.open, s);
    sent := cache.CloseInSandbox(s, true, 0);
    assert cache.View() == map[f := s] && cache.open == map[];
    sent := cache.SendFd(g, true, s, true);
  }

  /** The bad case arises from a new cache, for g below f among the first 128
      descriptors and for no other two: the uncaching of s then drops the entry for
      g, and a lookup of f finds the descriptor of g. */
  method WrongEntry(f: int, g: int, s: int) returns (cache: Cache)
    requires f >= 0 && g >= 0 && s >= 0 && f != g
    ensures fresh(cache) && cache.Valid() && cache.closing == multiset{} && cache.open == map[s := g]
    ensures cache.View() == if g < 128 && g < f then map[f := s] else map[g := s]
  {
    ghost var past;
    cache, past := SentAgain(f, g, s);
    ghost var direct, over := cache.fdDirect[..], cache.fdOverflow[..cache.count];
    ghost var hit := cache.FinishClose(s);
    SentAgainHit(direct, over, past, f, g, s, hit);
  }

  lemma SentAgainHit(direct: seq<int>, over: seq<Entry>, past: seq<Entry>, f: int, g: int, s: int, hit: Hit)
    requires WellFormed(direct, over) && past <= over && Before(past, s, f, true) && f >= 0 && g >= 0 && s >= 0 && f != g
    requires Mapping(direct, over) == map[f := s, g := s] && IsFirst(direct, over, s, hit)
    ensures Mapping(direct, over) - {HostOf(over, hit)} == if g < 128 && g < f then map[f := s] else map[g := s]
  {
    CloseWindow(direct, over, past, map[s := g], s, f, hit);
  }

  // ---------------------------------------------------------------------
  // Several closes and sends, interleaved in any way

  /** A send, or one of the two halves of a close of s. */
  datatype Event = Send(req: Request) | BeginClose(s: int) | EndClose(s: int)

  /** Every entry whose descriptor is not in closed is right. */
  predicate RightBut(m: map<int, int>, open: map<int, int>, closed: set<int>) {
    forall k | k in m && m[k] !in closed :: Right(m, open, k)
  }

  /** From one moment to a later one, entries and open descriptors not in closed
      stay as they are. */
  predicate Survives(m: map<int, int>, m': map<int, int>, closed: set<int>) {
    forall k | k in m && m[k] !in closed :: k in m' && m'[k] == m[k]
  }

  predicate StaysOpen(open: map<int, int>, open': map<int, int>, closed: set<int>) {
    forall r | r in open && r !in closed :: r in open' && open'[r] == open[r]
  }

  /** An answer is an error, a descriptor that is closed at some time, or the
      asking file's own. */
  predicate Answers(e: Event, r: int, open: map<int, int>, closed: set<int>) {
    e.Send? && e.req.fd >= 0 && r >= 0 && r !in closed ==> r in open && open[r] == e.req.fd
  }

  predicate Within(closing: multiset<int>, closed: set<int>) {
    forall s | s in closing :: s in closed
  }

  predicate Moves(m: map<int, int>, open: map<int, int>, m': map<int, int>, open': map<int, int>, closed: set<int>) {
    RightBut(m', open', closed) && Survives(m, m', closed) && StaysOpen(open, open', closed)
  }

  lemma SentMoves(m: map<int, int>, open: map<int, int>, m': map<int, int>, fd: int, r: int, closed: set<int>)
    requires RightBut(m, open, closed) && fd !in m && r !in open
    requires m' == m[fd := r] || m' == m
    ensures Moves(m, open, m', open[r := fd], closed)
  {
    forall k | k in m' && m'[k] !in closed ensures Right(m', open[r := fd], k) {
      assert k != fd ==> Right(m, open, k);
    }
  }

  lemma BegunMoves(m: map<int, int>, open: map<int, int>, s: int, closed: set<int>)
    requires RightBut(m, open, closed) && s in closed
    ensures Moves(m, open, m, open - {s}, closed)
  {
    forall k | k in m && m[k] !in closed ensures Right(m, open - {s}, k) {
      assert Right(m, open, k);
    }
  }

  lemma EndedMoves(m: map<int, int>, open: map<int, int>, h: int, closed: set<int>)
    requires RightBut(m, open, closed) && (h in m ==> m[h] in closed)
    ensures Moves(m, open, m - {h}, open, closed)
  {
    forall k | k in m - {h} && m[k] !in closed ensures Right(m - {h}, open, k) {
      assert Right(m, open, k);
    }
  }

  lemma MovesOn(m: map<int, int>, open: map<int, int>, m1: map<int, int>, open1: map<int, int>,
                m2: map<int, int>, open2: map<int, int>, closed: set<int>)
    requires Moves(m, open, m1, open1, closed) && Moves(m1, open1, m2, open2, closed)
    ensures Moves(m, open, m2, open2, closed)
  {
  }

  predicate AllAnswer(events: seq<Event>, rs: seq<int>, open: map<int, int>, closed: set<int>) {
    |rs| <= |events| && forall i | 0 <= i < |rs| :: Answers(events[i], rs[i], open, closed)
  }

  lemma AnswersOn(events: seq<Event>, rs: seq<int>, r: int, open: map<int, int>, open': map<int, int>, closed: set<int>)
    requires |rs| < |events| && AllAnswer(events, rs, open, closed) && StaysOpen(open, open', closed)
    requires Answers(events[|rs|], r, open', closed)
    ensures AllAnswer(events, rs + [r], open', closed)
  {
    forall i | 0 <= i <= |rs| ensures Answers(events[i], (rs + [r])[i], open', closed) {
      if i < |rs| {
        assert Answers(events[i], rs[i], open, closed);
      }
    }
  }

  method OneSend(cache: Cache, req: Request, ghost closed: set<int>) returns (r: int)
    requires cache.Valid() && RightBut(cache.View(), cache.open, closed)
    modifies cache`fdOverflow, cache`count, cache`open, cache.fdDirect, cache.fdOverflow
    ensures cache.Valid() && (fresh(cache.fdOverflow) || cache.fdOverflow == old(cache.fdOverflow))
    ensures Moves(old(cache.View()), old(cache.open), cache.View(), cache.open, closed)
    ensures Answers(Send(req), r, cache.open, closed)
  {
    ghost var m, open := cache.View(), cache.open;
    var received := if req.received in cache.open then -1 else req.received;
    r := cache.SendFd(req.fd, req.channel, received, req.grows);
    if req.fd >= 0 && req.fd !in m && req.channel && received >= 0 {
      SentMoves(m, open, cache.View(), req.fd, received, closed);
    } else if req.fd in m && r !in closed {
      assert Right(m, open, req.fd);
    }
  }

  method OneEnd(cache: Cache, s: int, ghost closed: set<int>)
    requires cache.Valid() && RightBut(cache.View(), cache.open, closed)
    requires s in cache.closing && s >= 0 && s in closed
    modifies cache`count, cache`closing, cache.fdDirect, cache.fdOverflow
    ensures cache.Valid() && cache.closing == old(cache.closing) - multiset{s}
    ensures Moves(old(cache.View()), old(cache.open), cache.View(), cache.open, closed)
  {
    ghost var direct, over := cache.fdDirect[..], cache.fdOverflow[..cache.count];
    ghost var hit := cache.FinishClose(s);
    HitMeaning(direct, over, s, hit);
    KeysAreFds(direct, over);
    EndedMoves(Mapping(direct, over), cache.open, HostOf(over, hit), closed);
  }

  /** One event; a half of a close that cannot happen now is passed over. */
  method OneEvent(cache: Cache, e: Event, ghost closed: set<int>) returns (r: int)
    requires cache.Valid() && RightBut(cache.View(), cache.open, closed) && Within(cache.closing, closed)
    requires e.BeginClose? ==> e.s in closed
    modifies cache, cache.fdDirect, cache.fdOverflow
    ensures cache.Valid() && (fresh(cache.fdOverflow) || cache.fdOverflow == old(cache.fdOverflow))
    ensures Within(cache.closing, closed)
    ensures Moves(old(cache.View()), old(cache.open), cache.View(), cache.open, closed)
    ensures Answers(e, r, cache.open, closed)
  {
    r := -1;
    match e
    case Send(req) =>
      r := OneSend(cache, req, closed);
    case BeginClose(s) =>
      if s in cache.open {
        BegunMoves(cache.View(), cache.open, s, closed);
        r := cache.CloseInSandbox(s, true, 0);
      }
    case EndClose(s) =>
      if s in cache.closing && s >= 0 {
        OneEnd(cache, s, closed);
      }
  }

  /** Any interleaving of sends and halves of closes, from any state: an entry
      whose descriptor none of the closes is for survives, every entry left that is
      not for one of theirs is right, and a send answers with an error, one of
      theirs, or a descriptor that is open for its own file from then on. */
  method Mingle(cache: Cache, events: seq<Event>, ghost closed: set<int>) returns (rs: seq<int>)
    requires cache.Valid() && RightBut(cache.View(), cache.open, closed) && Within(cache.closing, closed)
    requires forall i | 0 <= i < |events| && events[i].BeginClose? :: events[i].s in closed
    modifies cache, cache.fdDirect, cache.fdOverflow
    ensures cache.Valid()
    ensures RightBut(cache.View(), cache.open, closed)
    ensures Survives(old(cache.View()), cache.View(), closed) && StaysOpen(old(cache.open), cache.open, closed)
    ensures |rs| == |events| && AllAnswer(events, rs, cache.open, closed)
  {
    rs := [];
    ghost var m, open := cache.View(), cache.open;
    for i := 0 to |events|
      invariant cache.Valid() && |rs| == i && Within(cache.closing, closed)
      invariant fresh(cache.fdOverflow) || cache.fdOverflow == old(cache.fdOverflow)
      invariant Moves(m, open, cache.View(), cache.open, closed)
      invariant AllAnswer(events, rs, cache.open, closed)
    {
      ghost var m1, open1 := cache.View(), cache.open;
      var r := OneEvent(cache, events[i], closed);
      MovesOn(m, open, m1, open1, cache.View(), cache.open, closed);
      AnswersOn(events, rs, r, open1, cache.open, closed);
      rs := rs + [r];
    }
  }

  lemma HitCounts(m: map<int, int>, s: int, h: int, miss: bool)
    requires -1 !in m && (miss <==> s !in m.Values)
    requires if miss then h == -1 else h in m && m[h] == s
    ensures if KeysOf(m, s) == {} then h !in m else h in m && m[h] == s
  {
    if miss {
      forall k | k in m ensures m[k] != s {
        assert m[k] in m.Values;
      }
      assert KeysOf(m, s) == {};
    } else {
      assert h in KeysOf(m, s);
    }
  }

  lemma DirectSet(direct: seq<int>, over: seq<Entry>, h: int, s: int)
    requires WellFormed(direct, over) && 0 <= h < DIRECT_MAX && s >= 0
    ensures WellFormed(direct[h := s], over) && Mapping(direct[h := s], over) == Mapping(direct, over)[h := s]
  {
    TablesApart(direct, over, h);
    assert DirectMap(direct[h := s]) == DirectMap(direct)[h := s];
  }

  lemma DirectClear(direct: seq<int>, over: seq<Entry>, h: int)
    requires WellFormed(direct, over) && 0 <= h < DIRECT_MAX
    ensures WellFormed(direct[h := -1], over) && Mapping(direct[h := -1], over) == Mapping(direct, over) - {h}
  {
    TablesApart(direct, over, h);
    assert DirectMap(direct[h := -1]) == DirectMap(direct) - {h};
  }

  lemma OverflowPushMap(over: seq<Entry>, e: Entry)
    ensures OverflowMap(over + [e]) == OverflowMap(over)[e.hostFd := e.sandboxFd]
  {
    var over' := over + [e];
    assert over'[..|over'| - 1] == over;
  }

  lemma OverflowPush(direct: seq<int>, over: seq<Entry>, h: int, s: int)
    requires WellFormed(direct, over) && h >= DIRECT_MAX && s >= 0 && h !in Mapping(direct, over)
    ensures WellFormed(direct, over + [Entry(h, s)])
    ensures Mapping(direct, over + [Entry(h, s)]) == Mapping(direct, over)[h := s]
  {
    OverflowPushMap(over, Entry(h, s));
    forall i | 0 <= i < |over| ensures over[i].hostFd != h {
      OverflowAt(over, i);
    }
  }

  lemma KeysAreFds(direct: seq<int>, over: seq<Entry>)
    requires WellFormed(direct, over)
    ensures forall h | h in Mapping(direct, over) :: h >= 0
  {
    forall h | h in Mapping(direct, over) ensures h >= 0 {
      TablesApart(direct, over, h);
    }
  }

  lemma SwapRemoveView(direct: seq<int>, over: seq<Entry>, i: nat)
    requires WellFormed(direct, over) && i < |over|
    ensures Mapping(direct, SwapRemove(over, i)) == Mapping(direct, over) - {over[i].hostFd}
  {
    SwapRemoveDeletes(direct, over, i);
    TablesApart(direct, over, over[i].hostFd);
  }

  lemma MissView(direct: seq<int>, over: seq<Entry>)
    requires WellFormed(direct, over)
    ensures Mapping(direct, over) - {-1} == Mapping(direct, over)
  {
    KeysAreFds(direct, over);
  }

  /** In an injective map, removing the one key found removes the value. */
  lemma UncachedView(m: map<int, int>, h: int, s: int, miss: bool)
    requires Injective(m) && -1 !in m
    requires if miss then h == -1 && s !in m.Values else h in m && m[h] == s
    ensures m - {h} == map k | k in m && m[k] != s :: m[k]
    ensures Injective(m - {h}) && s !in (m - {h}).Values
  {
    var rest := map k | k in m && m[k] != s :: m[k];
    forall k | k in m ensures k in rest <==> k != h {
      assert m[k] in m.Values;
    }
  }

  // ---------------------------------------------------------------------
  // pbox_close does not hold the cache lock between closing the descriptor in
  // the sandbox and uncaching it

  predicate AllRight(m: map<int, int>, open: map<int, int>) {
    forall k | k in m :: Right(m, open, k)
  }

  /** While s, cached for h, is closed but not yet uncached: every other entry is
      right, and s, if the sandbox has handed it out again, is another file's. */
  predicate InWindow(m: map<int, int>, open: map<int, int>, s: int, h: int, stale: bool) {
    (forall k | k in m && !(stale && k == h) :: Right(m, open, k)) &&
    (stale ==> h in m && m[h] == s && (s in open ==> open[s] != h)) &&
    (s in open && 0 <= open[s] < DIRECT_MAX ==> open[s] in m && m[open[s]] == s) &&
    (forall r | r in open :: open[r] >= 0)
  }

  /** The overflow entries from before the window: only h's holds s. */
  predicate Before(over: seq<Entry>, s: int, h: int, stale: bool) {
    (forall i | 0 <= i < |over| && over[i].sandboxFd == s :: over[i].hostFd == h) &&
    (stale && h >= DIRECT_MAX ==> exists i :: 0 <= i < |over| && over[i] == Entry(h, s))
  }

  lemma BeforeWindow(direct: seq<int>, over: seq<Entry>, open: map<int, int>, s: int)
    requires WellFormed(direct, over) && s in open && AllRight(Mapping(direct, over), open)
    ensures var h := open[s]; Before(over, s, h, h in Mapping(direct, over) && Mapping(direct, over)[h] == s)
  {
    var m, h := Mapping(direct, over), open[s];
    forall i | 0 <= i < |over| && over[i].sandboxFd == s ensures over[i].hostFd == h {
      OverflowAt(over, i);
      TablesApart(direct, over, over[i].hostFd);
      assert over[i].hostFd in m && Right(m, open, over[i].hostFd);
    }
    if h in m && m[h] == s && h >= DIRECT_MAX {
      TablesApart(direct, over, h);
      var i := OverflowFrom(over, h);
    }
  }

  /** Which entry the uncaching drops: the stale one for h, unless s was handed
      out again for a descriptor below h in the direct table; then that fresh
      entry goes and the stale one stays. */
  lemma CloseWindow(direct: seq<int>, over: seq<Entry>, past: seq<Entry>, open: map<int, int>, s: int, h: int, hit: Hit)
    requires WellFormed(direct, over) && past <= over && Before(past, s, h, true) && s >= 0
    requires InWindow(Mapping(direct, over), open, s, h, true) && IsFirst(direct, over, s, hit)
    ensures HostOf(over, hit) == if s in open && open[s] < DIRECT_MAX && open[s] < h then open[s] else h
  {
    var m := Mapping(direct, over);
    TablesApart(direct, over, h);
    HitMeaning(direct, over, s, hit);
    var x := HostOf(over, hit);
    assert m[h] in m.Values;
    assert x in m && m[x] == s;
    assert x != h ==> Right(m, open, x);
    TablesApart(direct, over, x);
    if s in open && open[s] < DIRECT_MAX {
      TablesApart(direct, over, open[s]);
      assert direct[open[s]] == s;
    }
    if h < DIRECT_MAX {
      assert direct[h] == s;
    } else if hit.Overflow? {
      var j :| 0 <= j < |past| && past[j] == Entry(h, s);
      assert over[j] == past[j] && hit.i <= j;
      assert over[hit.i] == past[hit.i];
    }
  }
}
