/** Identity mapping: the same memory object at the same address in the host
    and in the sandbox, or no change at all. */
module Identity {
  import opened Common
  import opened ProcMaps

  /** Page number to the page of a memory object mapped there. */
  datatype Backing = Backing(memory: nat, page: nat)
  type Space = map<nat, Backing>

  /** Descriptors and the memory objects they refer to. */
  type Fds = map<nat, nat>

  /** Pages covered by a mapping of length bytes at addr. */
  function Pages(addr: nat, length: nat): set<nat> {
    var lo := addr / PAGE;
    var hi := lo + RoundToPages(length) / PAGE;
    set p | lo <= p < hi && Within(p, lo, hi)
  }

  /** A mapping covers whole pages of 4096 bytes, from addr to the end of the
      last one that holds any of the length bytes. */
  lemma PagesCover(addr: nat, length: nat, x: nat)
    requires addr % 4096 == 0
    ensures x / 4096 in Pages(addr, length) <==> addr <= x < addr + (length + 4095) / 4096 * 4096
  {
    var p, lo, n := x / 4096, addr / 4096, (length + 4095) / 4096;
    assert RoundToPages(length) / PAGE == n;
    assert Within(p, lo, lo + n) <==> lo <= p < lo + n;
  }

  /** The pages of a memory object laid out from addr. */
  function Layout(addr: nat, length: nat, memory: nat): Space {
    map p | p in Pages(addr, length) :: Backing(memory, p - addr / PAGE)
  }

  /** Byte x of the mapping is byte x of the memory object. */
  lemma LayoutExact(addr: nat, length: nat, memory: nat, x: nat)
    requires addr % 4096 == 0 && x < (length + 4095) / 4096 * 4096
    ensures (addr + x) / 4096 in Layout(addr, length, memory)
    ensures Layout(addr, length, memory)[(addr + x) / 4096] == Backing(memory, x / 4096) && (addr + x) % 4096 == x % 4096
  {
    PagesCover(addr, length, addr + x);
    assert addr == 4096 * (addr / 4096);
  }

  /** What a kernel may answer to an mmap that must not displace anything: a
      failure, or some address whose pages were free. A kernel that predates
      MAP_FIXED_NOREPLACE may ignore the requested address. */
  predicate Grantable(s: Space, length: nat, answer: Option<nat>) {
    answer.Some? ==> Pages(answer.value, length) !! s.Keys
  }

  /** The system's answers during one call, in the order they are asked for. An
      unmap answer says whether that munmap succeeded; the call ignores it. */
  datatype Answers = Answers(
    memfd: Option<nat>,         // memfd_create: a host descriptor
    sized: bool,                // ftruncate
    hostFirst: Option<nat>,     // mmap(NULL, ...) in the host
    channel: bool,              // get_or_create_channel
    sandboxFd: Option<nat>,     // the descriptor the sandbox received
    boxFirst: Option<nat>,      // sandbox mmap at hostFirst
    boxUnmapFirst: bool,        // sandbox munmap of a boxFirst elsewhere
    hostUnmapFirst: bool,       // munmap of hostFirst
    common: Option<nat>,        // pbox_find_common_free_address
    hostSecond: Option<nat>,    // mmap at common in the host
    boxSecond: Option<nat>,     // mmap at common in the sandbox
    boxUnmapSecond: bool,       // sandbox munmap of a boxSecond elsewhere
    hostUnmapSecond: bool)      // munmap of hostSecond
  {
    predicate Mapped() {
      memfd.Some? && sized && hostFirst.Some?
    }

    /** The memfd reached the sandbox, so the first sandbox mmap is made. */
    predicate Sent() {
      Mapped() && channel && sandboxFd.Some?
    }

    /** The host tries the searched address. */
    predicate Searched() {
      Sent() && boxFirst != hostFirst && common.Some?
    }

    predicate SecondTry() {
      Searched() && hostSecond == common
    }

    /** The address the call returns. */
    function Result(): Option<nat> {
      if Sent() && boxFirst == hostFirst then hostFirst
      else if SecondTry() && boxSecond == common then common
      else None
    }
  }

  /** When the call succeeds: the sandbox got the host's address, or, having
      failed in any way or got another, both sides got the searched one. */
  lemma ResultExact(a: Answers)
    ensures
      var sent := a.memfd.Some? && a.sized && a.hostFirst.Some? && a.channel && a.sandboxFd.Some?;
      var again := sent && a.boxFirst != a.hostFirst;
      var met := a.common.Some? && a.hostSecond == a.common && a.boxSecond == a.common;
      && (sent && !again ==> a.Result() == a.hostFirst)
      && (again && met ==> a.Result() == a.common)
      && (!sent || (again && !met) ==> a.Result() == None)
  {
  }

  /** The two address spaces and descriptor tables. */
  datatype World = World(host: Space, box: Space, hostFds: Fds, boxFds: Fds)

  /** A mapping that was made, is not wanted, and is still there. */
  function Stray(got: Option<nat>, unwanted: bool, gone: bool, length: nat, memory: nat): Space {
    if got.Some? && unwanted && !gone then Layout(got.value, length, memory) else map[]
  }

  function BoxStrayFirst(hasMunmap: bool, a: Answers, length: nat, memory: nat): Space {
    if a.Sent() then Stray(a.boxFirst, a.boxFirst != a.hostFirst, hasMunmap && a.boxUnmapFirst, length, memory) else map[]
  }

  function BoxStraySecond(hasMunmap: bool, a: Answers, length: nat, memory: nat): Space {
    if a.SecondTry() then Stray(a.boxSecond, a.boxSecond != a.common, hasMunmap && a.boxUnmapSecond, length, memory) else map[]
  }

  function HostStrayFirst(a: Answers, length: nat, memory: nat): Space {
    if a.Mapped() then Stray(a.hostFirst, !(a.Sent() && a.boxFirst == a.hostFirst), a.hostUnmapFirst, length, memory) else map[]
  }

  function HostStraySecond(a: Answers, length: nat, memory: nat): Space {
    if a.Searched() then
      Stray(a.hostSecond, !(a.hostSecond == a.common && a.boxSecond == a.common), a.hostUnmapSecond, length, memory)
    else map[]
  }

  /** What an unsuccessful attempt leaves in the sandbox, and in the host. */
  function BoxStrays(hasMunmap: bool, a: Answers, length: nat, memory: nat): Space {
    BoxStrayFirst(hasMunmap, a, length, memory) + BoxStraySecond(hasMunmap, a, length, memory)
  }

  function HostStrays(a: Answers, length: nat, memory: nat): Space {
    HostStrayFirst(a, length, memory) + HostStraySecond(a, length, memory)
  }

  /** Answers that are possible, each in the state it is asked in. */
  predicate Possible(w: World, hasMunmap: bool, a: Answers, length: nat, memory: nat) {
    (a.memfd.Some? ==> a.memfd.value !in w.hostFds) &&
    (a.sandboxFd.Some? ==> a.sandboxFd.value !in w.boxFds) &&
    Grantable(w.host, length, a.hostFirst) && Grantable(w.box, length, a.boxFirst) &&
    Grantable(w.host + HostStrayFirst(a, length, memory), length, a.hostSecond) &&
    Grantable(w.box + BoxStrayFirst(hasMunmap, a, length, memory), length, a.boxSecond)
  }

  /** What a result adds to each address space. */
  function Added(r: Option<nat>, length: nat, memory: nat): Space {
    if r.Some? then Layout(r.value, length, memory) else map[]
  }

  lemma Together(s: Space, x: Space, y: Space)
    ensures s + (map[] + map[]) + map[] == s && s + map[] == s
    ensures s + (x + map[]) + y == s + x + y
    ensures s + (x + y) + map[] == s + x + y
    ensures map[] + x == x && x + map[] == x
  {
  }

  lemma UnmapUndoes(s: Space, addr: nat, length: nat, memory: nat)
    requires Grantable(s, length, Some(addr))
    ensures (s + Layout(addr, length, memory)) - Pages(addr, length) == s
  {
  }

  class Mapper {
    const hasMmap: bool
    const hasMunmap: bool
    var host: Space
    var box: Space
    var hostFds: Fds
    var boxFds: Fds

    ghost function Now(): World
      reads this
    {
      World(host, box, hostFds, boxFds)
    }

    /** pbox_munmap; works says whether the sandbox's munmap succeeds. */
    method BoxUnmap(addr: nat, length: nat, works: bool)
      modifies this`box
      ensures box == if hasMunmap && works then old(box) - Pages(addr, length) else old(box)
    {
      if hasMunmap {
        if works {
          box := box - Pages(addr, length);
        }
      }
    }

    /** munmap in the host. */
    method HostUnmap(addr: nat, length: nat, works: bool)
      modifies this`host
      ensures host == if works then old(host) - Pages(addr, length) else old(host)
    {
      if works {
        host := host - Pages(addr, length);
      }
    }

    /** One sandbox mmap of descriptor fd at the wanted address; a mapping that
        came back anywhere else is unmapped again. */
    method TryBox(fd: nat, got: Option<nat>, unmaps: bool, wanted: nat, length: nat) returns (ok: bool)
      requires fd in boxFds && Grantable(box, length, got)
      modifies this`box
      ensures ok <==> got == Some(wanted)
      ensures ok ==> box == old(box) + Layout(wanted, length, boxFds[fd])
      ensures !ok ==> box == old(box) + Stray(got, true, hasMunmap && unmaps, length, boxFds[fd])
    {
      if got.Some? {
        UnmapUndoes(box, got.value, length, boxFds[fd]);
        box := box + Layout(got.value, length, boxFds[fd]);
      }
      ok := got == Some(wanted);
      if !ok && got.Some? {
        BoxUnmap(got.value, length, unmaps);
      }
    }

    /** One host mmap at the wanted address; a mapping elsewhere is unmapped. */
    method TryHost(memfd: nat, got: Option<nat>, unmaps: bool, wanted: nat, length: nat) returns (ok: bool)
      requires memfd in hostFds && Grantable(host, length, got)
      modifies this`host
      ensures ok <==> got == Some(wanted)
      ensures ok ==> host == old(host) + Layout(wanted, length, hostFds[memfd])
      ensures !ok ==> host == old(host) + Stray(got, true, unmaps, length, hostFds[memfd])
    {
      if got.Some? {
        UnmapUndoes(host, got.value, length, hostFds[memfd]);
        host := host + Layout(got.value, length, hostFds[memfd]);
      }
      ok := got == Some(wanted);
      if !ok && got.Some? {
        HostUnmap(got.value, length, unmaps);
      }
    }

    /** The fallback of pbox_mmap_identity: both sides at one searched address. */
    method SecondAttempt(memfd: nat, fd: nat, length: nat, a: Answers) returns (r: Option<nat>)
      requires memfd in hostFds && fd in boxFds && hostFds[memfd] == boxFds[fd] && a.Sent() && a.boxFirst != a.hostFirst
      requires Grantable(host, length, a.hostSecond) && Grantable(box, length, a.boxSecond)
      modifies this`host, this`box
      ensures r == a.Result()
      ensures host == old(host) + HostStraySecond(a, length, hostFds[memfd]) + Added(r, length, hostFds[memfd])
      ensures box == old(box) + BoxStraySecond(hasMunmap, a, length, hostFds[memfd]) + Added(r, length, hostFds[memfd])
    {
      Together(host, map[], map[]);
      if a.common.None? {
        return None;
      }
      var common := a.common.value;
      ghost var host0 := host;
      var placed := TryHost(memfd, a.hostSecond, a.hostUnmapSecond, common, length);
      if !placed {
        return None;
      }
      r := FinishSecond(memfd, fd, length, a, host0);
    }

    /** The sandbox's half of the fallback, the host mapped at common. */
    method FinishSecond(memfd: nat, fd: nat, length: nat, a: Answers, ghost host0: Space) returns (r: Option<nat>)
      requires memfd in hostFds && fd in boxFds && hostFds[memfd] == boxFds[fd] && a.SecondTry()
      requires host == host0 + Layout(a.common.value, length, hostFds[memfd])
      requires Grantable(host0, length, a.common) && Grantable(box, length, a.boxSecond)
      modifies this`host, this`box
      ensures r == a.Result()
      ensures host == host0 + HostStraySecond(a, length, hostFds[memfd]) + Added(r, length, hostFds[memfd])
      ensures box == old(box) + BoxStraySecond(hasMunmap, a, length, hostFds[memfd]) + Added(r, length, hostFds[memfd])
    {
      var common := a.common.value;
      ghost var box0 := box;
      var ok := TryBox(fd, a.boxSecond, a.boxUnmapSecond, common, length);
      if ok {
        Together(host0, map[], Layout(common, length, hostFds[memfd]));
        Together(box0, map[], Layout(common, length, hostFds[memfd]));
        return Some(common);
      }
      UnmapUndoes(host0, common, length, hostFds[memfd]);
      HostUnmap(common, length, a.hostUnmapSecond);
      Together(host0, HostStraySecond(a, length, hostFds[memfd]), map[]);
      return None;
    }

    /** pbox_mmap_identity; memory is the object memfd_create makes. On every
        path each address space ends up with the returned mapping added, apart
        from strays, and the host memfd is closed. The descriptor sent to the
        sandbox stays open there. */
    method MmapIdentity(length: nat, a: Answers, memory: nat) returns (r: Option<nat>)
      requires Possible(Now(), hasMunmap, a, length, memory)
      modifies this
      ensures r == if hasMmap then a.Result() else None
      ensures host == old(host) + (if hasMmap then HostStrays(a, length, memory) else map[]) + Added(r, length, memory)
      ensures box == old(box) + (if hasMmap then BoxStrays(hasMunmap, a, length, memory) else map[]) + Added(r, length, memory)
      ensures hostFds == old(hostFds)
      ensures boxFds == if hasMmap && a.memfd.Some? && a.sized && a.hostFirst.Some? && a.channel && a.sandboxFd.Some?
                        then old(boxFds)[a.sandboxFd.value := memory] else old(boxFds)
    {
      Together(box, map[], map[]);
      Together(host, map[], map[]);
      if !hasMmap || a.memfd.None? {
        return None;
      }
      var memfd := a.memfd.value;
      ghost var fds := hostFds;
      hostFds := hostFds[memfd := memory];
      assert hostFds - {memfd} == fds;
      if !a.sized || a.hostFirst.None? {
        hostFds := hostFds - {memfd};
        return None;
      }
      var hostAddr := a.hostFirst.value;
      ghost var host0 := host;
      UnmapUndoes(host, hostAddr, length, memory);
      host := host + Layout(hostAddr, length, hostFds[memfd]);
      if !a.channel || a.sandboxFd.None? {
        HostUnmap(hostAddr, length, a.hostUnmapFirst);
        Together(host0, HostStrayFirst(a, length, memory), map[]);
        hostFds := hostFds - {memfd};
        return None;
      }
      var fd := a.sandboxFd.value;
      boxFds := boxFds[fd := hostFds[memfd]];
      r := Attempts(memfd, fd, length, a, host0);
      hostFds := hostFds - {memfd};
    }

    /** From the first sandbox mmap on, the host mapped at hostFirst. */
    method Attempts(memfd: nat, fd: nat, length: nat, a: Answers, ghost host0: Space) returns (r: Option<nat>)
      requires memfd in hostFds && fd in boxFds && hostFds[memfd] == boxFds[fd] && a.Sent()
      requires host == host0 + Layout(a.hostFirst.value, length, hostFds[memfd])
      requires Grantable(host0, length, a.hostFirst) && Grantable(box, length, a.boxFirst)
      requires Grantable(host0 + HostStrayFirst(a, length, hostFds[memfd]), length, a.hostSecond)
      requires Grantable(box + BoxStrayFirst(hasMunmap, a, length, hostFds[memfd]), length, a.boxSecond)
      modifies this`host, this`box
      ensures r == a.Result()
      ensures host == host0 + HostStrays(a, length, hostFds[memfd]) + Added(r, length, hostFds[memfd])
      ensures box == old(box) + BoxStrays(hasMunmap, a, length, hostFds[memfd]) + Added(r, length, hostFds[memfd])
    {
      ghost var memory, box0 := hostFds[memfd], box;
      var hostAddr := a.hostFirst.value;
      var ok := TryBox(fd, a.boxFirst, a.boxUnmapFirst, hostAddr, length);
      if ok {
        Together(box0, map[], Layout(hostAddr, length, memory));
        Together(host0, map[], Layout(hostAddr, length, memory));
        return Some(hostAddr);
      }
      UnmapUndoes(host0, hostAddr, length, memory);
      Together(host0, map[], map[]);
      HostUnmap(hostAddr, length, a.hostUnmapFirst);
      r := SecondAttempt(memfd, fd, length, a);
      Regroup(host0, HostStrayFirst(a, length, memory), HostStraySecond(a, length, memory));
      Regroup(box0, BoxStrayFirst(hasMunmap, a, length, memory), BoxStraySecond(hasMunmap, a, length, memory));
    }
  }

  lemma Regroup(s: Space, x: Space, y: Space)
    ensures s + x + y == s + (x + y)
  {
  }

  /** The mapping a successful call adds is the same memory at the same address
      on both sides, whatever strays there are. */
  lemma MappedAlike(w: World, hasMunmap: bool, a: Answers, length: nat, memory: nat, p: nat)
    requires Possible(w, hasMunmap, a, length, memory) && a.Result().Some? && p in Pages(a.Result().value, length)
    ensures
      var added := Layout(a.Result().value, length, memory);
      && (w.host + HostStrays(a, length, memory) + added)[p] == (w.box + BoxStrays(hasMunmap, a, length, memory) + added)[p]
      && p !in w.host && p !in w.box
  {
  }

  /** Every munmap the call makes does its work: in the sandbox that takes the
      munmap symbol and a success, in the host a success. */
  predicate UnmapsWork(hasMunmap: bool, a: Answers) {
    var began := a.memfd.Some? && a.sized && a.hostFirst.Some?;
    var sent := began && a.channel && a.sandboxFd.Some?;
    var again := sent && a.boxFirst != a.hostFirst && a.common.Some?;
    (sent && a.boxFirst.Some? && a.boxFirst != a.hostFirst ==> hasMunmap && a.boxUnmapFirst) &&
    (again && a.hostSecond == a.common && a.boxSecond.Some? && a.boxSecond != a.common ==> hasMunmap && a.boxUnmapSecond) &&
    (began && !(sent && a.boxFirst == a.hostFirst) ==> a.hostUnmapFirst) &&
    (again && a.hostSecond.Some? && !(a.hostSecond == a.common && a.boxSecond == a.common) ==> a.hostUnmapSecond)
  }

  /** The call ends with the returned mapping added to both sides and nothing
      else, or with nothing added. */
  predicate AllOrNone(w: World, hasMunmap: bool, a: Answers, length: nat, memory: nat) {
    w.host + HostStrays(a, length, memory) + Added(a.Result(), length, memory) == w.host + Added(a.Result(), length, memory) &&
    w.box + BoxStrays(hasMunmap, a, length, memory) + Added(a.Result(), length, memory) == w.box + Added(a.Result(), length, memory)
  }

  lemma LayoutNotEmpty(addr: nat, length: nat, memory: nat)
    requires length > 0
    ensures addr / PAGE in Layout(addr, length, memory)
  {
    assert RoundToPages(length) / PAGE >= 1;
    assert Within(addr / PAGE, addr / PAGE, addr / PAGE + RoundToPages(length) / PAGE);
  }

  lemma WorkingLeavesNone(w: World, hasMunmap: bool, a: Answers, length: nat, memory: nat)
    requires UnmapsWork(hasMunmap, a)
    ensures AllOrNone(w, hasMunmap, a, length, memory)
  {
    assert HostStrays(a, length, memory) == map[] && BoxStrays(hasMunmap, a, length, memory) == map[];
    Together(w.host, map[], map[]);
    Together(w.box, map[], map[]);
  }

  /** A first page of a stray, clear of the address space and of what is added. */
  predicate Marks(s: Space, strays: Space, r: Space, p: nat) {
    p in strays && p !in s && p !in r
  }

  lemma HostLeaves(w: World, hasMunmap: bool, a: Answers, length: nat, memory: nat) returns (p: nat)
    requires Possible(w, hasMunmap, a, length, memory) && length > 0
    requires HostStrays(a, length, memory) != map[]
    ensures Marks(w.host, HostStrays(a, length, memory), Added(a.Result(), length, memory), p)
  {
    if HostStraySecond(a, length, memory) != map[] {
      p := a.hostSecond.value / PAGE;
      LayoutNotEmpty(a.hostSecond.value, length, memory);
    } else {
      p := a.hostFirst.value / PAGE;
      LayoutNotEmpty(a.hostFirst.value, length, memory);
    }
  }

  lemma BoxLeaves(w: World, hasMunmap: bool, a: Answers, length: nat, memory: nat) returns (p: nat)
    requires Possible(w, hasMunmap, a, length, memory) && length > 0
    requires BoxStrays(hasMunmap, a, length, memory) != map[]
    ensures Marks(w.box, BoxStrays(hasMunmap, a, length, memory), Added(a.Result(), length, memory), p)
  {
    if BoxStraySecond(hasMunmap, a, length, memory) != map[] {
      p := a.boxSecond.value / PAGE;
      LayoutNotEmpty(a.boxSecond.value, length, memory);
    } else {
      p := a.boxFirst.value / PAGE;
      LayoutNotEmpty(a.boxFirst.value, length, memory);
    }
  }

  lemma FailingLeavesSome(hasMunmap: bool, a: Answers, length: nat, memory: nat)
    requires length > 0 && !UnmapsWork(hasMunmap, a)
    ensures HostStrays(a, length, memory) != map[] || BoxStrays(hasMunmap, a, length, memory) != map[]
  {
    if a.hostFirst.Some? { LayoutNotEmpty(a.hostFirst.value, length, memory); }
    if a.hostSecond.Some? { LayoutNotEmpty(a.hostSecond.value, length, memory); }
    if a.boxFirst.Some? { LayoutNotEmpty(a.boxFirst.value, length, memory); }
    if a.boxSecond.Some? { LayoutNotEmpty(a.boxSecond.value, length, memory); }
  }

  /** For every course the call can take: both address spaces change by the
      returned mapping and nothing else exactly when each munmap it makes works. */
  lemma AllOrNothing(w: World, hasMunmap: bool, a: Answers, length: nat, memory: nat)
    requires Possible(w, hasMunmap, a, length, memory) && length > 0
    ensures AllOrNone(w, hasMunmap, a, length, memory) <==> UnmapsWork(hasMunmap, a)
  {
    if UnmapsWork(hasMunmap, a) {
      WorkingLeavesNone(w, hasMunmap, a, length, memory);
    } else {
      FailingLeavesSome(hasMunmap, a, length, memory);
      if HostStrays(a, length, memory) != map[] {
        var p := HostLeaves(w, hasMunmap, a, length, memory);
        assert p in w.host + HostStrays(a, length, memory) + Added(a.Result(), length, memory);
      } else {
        var p := BoxLeaves(w, hasMunmap, a, length, memory);
        assert p in w.box + BoxStrays(hasMunmap, a, length, memory) + Added(a.Result(), length, memory);
      }
    }
  }

  predicate UnmapsSucceed(a: Answers) {
    a.boxUnmapFirst && a.boxUnmapSecond && a.hostUnmapFirst && a.hostUnmapSecond
  }

  /** Where no munmap fails, that is so on every path exactly when the sandbox has
      the munmap symbol. */
  lemma AllOrNothingSymbol(hasMunmap: bool, length: nat, memory: nat)
    requires length > 0
    ensures (forall w, a | Possible(w, hasMunmap, a, length, memory) && UnmapsSucceed(a) ::
              AllOrNone(w, hasMunmap, a, length, memory)) <==> hasMunmap
  {
    if hasMunmap {
      forall w, a | Possible(w, hasMunmap, a, length, memory) && UnmapsSucceed(a)
        ensures AllOrNone(w, hasMunmap, a, length, memory)
      {
        WorkingLeavesNone(w, hasMunmap, a, length, memory);
      }
    } else {
      var w := World(map[], map[], map[], map[]);
      var a := Answers(Some(3), true, Some(0x10000), true, Some(4), Some(0x20000), true, true, None, None, None, true, true);
      assert Possible(w, hasMunmap, a, length, memory);
      AllOrNothing(w, hasMunmap, a, length, memory);
    }
  }
}
