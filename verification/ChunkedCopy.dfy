/** pbox_copy_to and pbox_copy_from: copies of any length between host and
    sandbox memory through the channel's 4096-byte mem_storage. */
module ChunkedCopy {
  import Channel
  import opened Memory
  import opened Types

  const MEM_STORAGE: nat := 4096
  /** Offset of mem_storage, the last field of struct PBoxChannel. */
  const STORAGE_OFFSET: nat := 1556
  const CHANNEL_SIZE: nat := Channel.CHANNEL_SIZE

  datatype Outcome = Copied | NoMemcpy | NoChannel | Aborted

  /** Which way a copy request goes: the sandbox has no memcpy, the thread has no
      channel, or a callback is being dispatched; otherwise it is done. */
  predicate Decided(outcome: Outcome, hasMemcpy: bool, hasChannel: bool, inCallback: bool) {
    match outcome
    case NoMemcpy => !hasMemcpy
    case NoChannel => hasMemcpy && !hasChannel
    case Aborted => hasMemcpy && hasChannel && inCallback
    case Copied => hasMemcpy && hasChannel && !inCallback
  }

  /** m' is m with bs at dest, and the bytes of [ch, ch + hole) free to differ. */
  ghost predicate Received(m: Mem, m': Mem, dest: nat, bs: Bytes, ch: nat, hole: nat) {
    Load(m', dest, |bs|) == bs &&
    forall x: nat | !Within(x, dest, |bs|) && !Within(x, ch, hole) :: m'(x) == m(x)
  }

  predicate Within(x: nat, a: nat, n: nat) {
    a <= x < a + n
  }

  /** Two adjoining chunks make one longer copy. */
  lemma ReceivedMore(m: Mem, m1: Mem, m2: Mem, dest: nat, bs: Bytes, more: Bytes, ch: nat, hole: nat)
    requires Received(m, m1, dest, bs, ch, hole) && Received(m1, m2, dest + |bs|, more, ch, hole)
    requires Apart(dest, |bs| + |more|, ch, hole)
    ensures Received(m, m2, dest, bs + more, ch, hole)
  {
    forall i | 0 <= i < |bs + more| ensures m2(dest + i) == (bs + more)[i] {
      if i < |bs| {
        assert Load(m1, dest, |bs|)[i] == bs[i];
        assert !Within(dest + i, dest + |bs|, |more|) && !Within(dest + i, ch, hole);
      } else {
        assert Load(m2, dest + |bs|, |more|)[i - |bs|] == more[i - |bs|];
      }
    }
    forall x: nat | !Within(x, dest, |bs + more|) && !Within(x, ch, hole) ensures m2(x) == m(x) {
      assert !Within(x, dest, |bs|) && !Within(x, dest + |bs|, |more|);
    }
  }

  lemma LoadMore(m: Mem, a: nat, n: nat, k: nat)
    ensures Load(m, a, n + k) == Load(m, a, n) + Load(m, a + n, k)
  {
  }

  /** The memory a host thread and the sandbox work on: the host's own, and the
      sandbox's, where the thread's channel lies at ch. */
  class Link {
    const ch: nat
    var host: Mem
    var box: Mem

    constructor (ch: nat, host: Mem, box: Mem)
      ensures this.ch == ch && this.host == host && this.box == box
    {
      this.ch, this.host, this.box := ch, host, box;
    }

    /** Sandbox address of mem_storage. */
    function Storage(): nat {
      ch + STORAGE_OFFSET
    }

    /** The host's memcpy(ch->mem_storage, s, chunk). */
    method FillStorage(s: nat, chunk: nat)
      requires chunk <= MEM_STORAGE
      modifies this`box
      ensures Load(box, Storage(), chunk) == Load(host, s, chunk)
      ensures forall x: nat | !Within(x, ch, CHANNEL_SIZE) :: box(x) == old(box)(x)
    {
      box := Store(box, Storage(), Load(host, s, chunk));
    }

    /** The host's memcpy(d, ch->mem_storage, chunk). */
    method DrainStorage(d: nat, chunk: nat)
      requires chunk <= MEM_STORAGE
      modifies this`host
      ensures Load(host, d, chunk) == Load(box, Storage(), chunk) && SameOutside(old(host), host, d, chunk)
    {
      host := Store(host, d, Load(box, Storage(), chunk));
    }

    /** pbox_call of the sandbox's memcpy(d, s, n); the call itself uses the
        channel fields before mem_storage and leaves scribble there. */
    method CallMemcpy(d: nat, s: nat, n: nat, scribble: Mem)
      requires Apart(d, n, s, n)
      requires Apart(d, n, ch, CHANNEL_SIZE) || d == Storage()
      requires Apart(s, n, ch, CHANNEL_SIZE) || s == Storage()
      requires n <= MEM_STORAGE
      modifies this`box
      ensures Load(box, d, n) == Load(old(box), s, n)
      ensures forall x: nat | !Within(x, d, n) && !Within(x, ch, CHANNEL_SIZE) :: box(x) == old(box)(x)
    {
      var copied := Store(box, d, Load(box, s, n));
      var fields := Load(scribble, ch, STORAGE_OFFSET);
      LoadStored(box, d, Load(box, s, n));
      box := Store(copied, ch, fields);
      LoadApart(copied, box, ch, STORAGE_OFFSET, d, n);
    }

    /** pbox_copy_to. */
    method CopyTo(dest: nat, src: nat, n: nat, hasMemcpy: bool, hasChannel: bool, inCallback: bool, scribble: nat -> Mem)
      returns (outcome: Outcome)
      requires Apart(dest, n, ch, CHANNEL_SIZE)
      modifies this`box
      ensures Decided(outcome, hasMemcpy, hasChannel, inCallback)
      ensures outcome == Copied ==> Received(old(box), box, dest, Load(host, src, n), ch, CHANNEL_SIZE)
      ensures outcome != Copied ==> box == old(box)
    {
      if !hasMemcpy { return NoMemcpy; }
      if !hasChannel { return NoChannel; }
      if inCallback { return Aborted; }
      var s, d, left := src, dest, n;
      while left > 0
        invariant 0 <= left <= n && s == src + (n - left) && d == dest + (n - left)
        invariant Received(old(box), box, dest, Load(host, src, n - left), ch, CHANNEL_SIZE)
      {
        var chunk := if left < MEM_STORAGE then left else MEM_STORAGE;
        ghost var before := box;
        FillStorage(s, chunk);
        ghost var bs := Load(host, s, chunk);
        CallMemcpy(d, Storage(), chunk, scribble(left));
        assert Received(before, box, d, bs, ch, CHANNEL_SIZE);
        ReceivedMore(old(box), before, box, dest, Load(host, src, n - left), bs, ch, CHANNEL_SIZE);
        LoadMore(host, src, n - left, chunk);
        s, d, left := s + chunk, d + chunk, left - chunk;
      }
      return Copied;
    }

    /** One turn of the copy_from loop. */
    method FetchChunk(d: nat, s: nat, chunk: nat, scribble: Mem)
      requires chunk <= MEM_STORAGE && Apart(s, chunk, ch, CHANNEL_SIZE)
      modifies this`host, this`box
      ensures Received(old(host), host, d, Load(old(box), s, chunk), 0, 0)
      ensures forall x: nat | !Within(x, ch, CHANNEL_SIZE) :: box(x) == old(box)(x)
    {
      CallMemcpy(Storage(), s, chunk, scribble);
      DrainStorage(d, chunk);
    }

    /** pbox_copy_from. */
    method CopyFrom(dest: nat, src: nat, n: nat, hasMemcpy: bool, hasChannel: bool, inCallback: bool, scribble: nat -> Mem)
      returns (outcome: Outcome)
      requires Apart(src, n, ch, CHANNEL_SIZE)
      modifies this`host, this`box
      ensures Decided(outcome, hasMemcpy, hasChannel, inCallback)
      ensures outcome == Copied ==> Load(host, dest, n) == Load(old(box), src, n)
      ensures SameOutside(old(host), host, dest, n)
      ensures forall x: nat | !Within(x, ch, CHANNEL_SIZE) :: box(x) == old(box)(x)
      ensures outcome != Copied ==> host == old(host) && box == old(box)
    {
      if !hasMemcpy { return NoMemcpy; }
      if !hasChannel { return NoChannel; }
      if inCallback { return Aborted; }
      var d, s, left := dest, src, n;
      while left > 0
        invariant 0 <= left <= n && s == src + (n - left) && d == dest + (n - left)
        invariant forall x: nat | !Within(x, ch, CHANNEL_SIZE) :: box(x) == old(box)(x)
        invariant Received(old(host), host, dest, Load(old(box), src, n - left), 0, 0)
      {
        var chunk := if left < MEM_STORAGE then left else MEM_STORAGE;
        ghost var before := host;
        ChannelAside(old(box), box, ch, s, chunk);
        FetchChunk(d, s, chunk, scribble(left));
        ReceivedMore(old(host), before, host, dest, Load(old(box), src, n - left), Load(old(box), s, chunk), 0, 0);
        LoadMore(old(box), src, n - left, chunk);
        s, d, left := s + chunk, d + chunk, left - chunk;
      }
      return Copied;
    }

    /** What was copied in comes back: the host bytes at back end up equal to the
        original ones at src. */
    method CopyThereAndBack(there: nat, src: nat, back: nat, n: nat, scribble: nat -> Mem)
      requires Apart(there, n, ch, CHANNEL_SIZE)
      modifies this`host, this`box
      ensures Load(host, back, n) == Load(old(host), src, n)
      ensures SameOutside(old(host), host, back, n)
      ensures Received(old(box), box, there, Load(old(host), src, n), ch, CHANNEL_SIZE)
    {
      var sent := CopyTo(there, src, n, true, true, false, scribble);
      ghost var mid := box;
      var got := CopyFrom(back, there, n, true, true, false, scribble);
      ChannelAside(mid, box, ch, there, n);
    }
  }

  lemma ChannelAside(m: Mem, m': Mem, ch: nat, a: nat, n: nat)
    requires forall x: nat | !Within(x, ch, CHANNEL_SIZE) :: m'(x) == m(x)
    requires Apart(a, n, ch, CHANNEL_SIZE)
    ensures Load(m', a, n) == Load(m, a, n)
  {
    forall x: nat | Within(x, a, n) ensures m'(x) == m(x) {
      assert !Within(x, ch, CHANNEL_SIZE);
    }
    LoadEqual(m, m', a, n);
  }

  lemma LoadEqual(m: Mem, m': Mem, a: nat, n: nat)
    requires forall x: nat | Within(x, a, n) :: m'(x) == m(x)
    ensures Load(m', a, n) == Load(m, a, n)
  {
    assert forall i | 0 <= i < n :: Within(a + i, a, n) && Load(m', a, n)[i] == Load(m, a, n)[i];
  }
}
