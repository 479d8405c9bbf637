/** Where a C compiler for either architecture puts the fields of the structures
    that assembly, filters and the two processes reach by offset. */
module Layout {
  import opened CallFrame
  import Channel
  import ChunkedCopy
  import Marshal
  import Seccomp

  /** An array of n elements of a type as wide as its alignment. */
  datatype Field = Chars(n: nat) | Ints(n: nat) | Words(n: nat)
  {
    function Size(): nat {
      match this
      case Chars(n) => n
      case Ints(n) => 4 * n
      case Words(n) => 8 * n
    }

    /** The first place for it at or after at. */
    function From(at: nat): nat {
      match this
      case Chars(_) => at
      case Ints(_) => (at + 3) / 4 * 4
      case Words(_) => (at + 7) / 8 * 8
    }
  }

  const INT := Ints(1)
  const WORD := Words(1)

  /** Each field is at the first place for it after the one before, and the whole is
      padded to a word. */
  predicate LaidOut(fs: seq<Field>, offsets: seq<nat>, size: nat) {
    var n := |fs|;
    n > 0 && |offsets| == n && offsets[0] == 0 &&
    (forall i | 0 < i < n :: offsets[i] == fs[i].From(offsets[i - 1] + fs[i - 1].Size())) &&
    size == WORD.From(offsets[n - 1] + fs[n - 1].Size())
  }

  /** That leaves nothing open. */
  lemma OneLayout(fs: seq<Field>, a: seq<nat>, s: nat, b: seq<nat>, t: nat, i: nat)
    requires LaidOut(fs, a, s) && LaidOut(fs, b, t) && i < |fs|
    ensures a[i] == b[i] && s == t
  {
    SameFront(fs, a, s, b, t, i);
    SameFront(fs, a, s, b, t, |fs| - 1);
  }

  lemma {:induction false} SameFront(fs: seq<Field>, a: seq<nat>, s: nat, b: seq<nat>, t: nat, i: nat)
    requires LaidOut(fs, a, s) && LaidOut(fs, b, t) && i < |fs|
    ensures a[i] == b[i]
  {
    if i > 0 {
      SameFront(fs, a, s, b, t, i - 1);
    }
  }

  /** The assembly finds the fields of DyfnCallArgs where the compiler put them. */
  lemma CallArgsLayout()
    ensures LaidOut([Words(8), Words(8), INT, INT, Words(4), INT, WORD, INT],
                    [0, CALL_FLOAT_REGS, 128, 132, CALL_STACK_ARGS, CALL_STACK_COUNT, CALL_FUNC, 184], SIZEOF_CALL)
  {
  }

  /** A closure's frame holds its DyfnClosureSavedRegs and, right behind it, its
      DyfnClosureResult. */
  lemma ClosureLayout()
    ensures LaidOut([Words(8), Words(8), Words(4), INT],
                    [0, SAVED_FLOAT_REGS, SAVED_STACK_ARGS, SAVED_STUB_INDEX], SIZEOF_SAVED)
    ensures LaidOut([WORD, WORD, INT], [0, 8, 16], FRAME_SIZE - SIZEOF_SAVED) && FRAME_SIZE % 16 == 0
  {
  }

  /** Fields placed one after the other, the first at start. */
  predicate Placed(fs: seq<Field>, offsets: seq<nat>, start: nat, end: nat) {
    var n := |fs|;
    n > 0 && |offsets| == n && offsets[0] == start &&
    (forall i | 0 < i < n :: offsets[i] == fs[i].From(offsets[i - 1] + fs[i - 1].Size())) &&
    end == offsets[n - 1] + fs[n - 1].Size()
  }

  lemma PlacedOn(fs: seq<Field>, xs: seq<nat>, start: nat, mid: nat, gs: seq<Field>, ys: seq<nat>, next: nat, end: nat)
    requires Placed(fs, xs, start, mid) && Placed(gs, ys, next, end) && next == gs[0].From(mid)
    ensures Placed(fs + gs, xs + ys, start, end)
  {
    var n := |fs|;
    forall i | 0 < i < n + |gs| ensures (xs + ys)[i] == (fs + gs)[i].From((xs + ys)[i - 1] + (fs + gs)[i - 1].Size()) {
      if i > n {
        assert ys[i - n] == gs[i - n].From(ys[i - n - 1] + gs[i - n - 1].Size());
      }
    }
  }

  /** struct PBoxChannel: the call, the single-answer requests, closures and
      callbacks, and the three buffers. */
  function CallFields(): seq<Field> {
    [INT, WORD, INT, WORD, INT, INT, Ints(Marshal.MAX_ARGS), Words(Marshal.MAX_ARGS)]
  }

  function RequestFields(): seq<Field> {
    [Chars(256), WORD, INT, INT]
  }

  function ClosureFields(): seq<Field> {
    [INT, INT, INT, Ints(Marshal.MAX_ARGS), WORD, INT]
  }

  function Buffers(): seq<Field> {
    [Chars(Marshal.ARG_STORAGE), Chars(Channel.RESULT_STORAGE), Chars(ChunkedCopy.MEM_STORAGE)]
  }

  lemma CallPlaced()
    ensures Placed(CallFields(), [0, 8, 16, 24, 32, 36, 40, 80], 0, 160)
  {
  }

  lemma RequestsPlaced()
    ensures Placed(RequestFields(), [160, 416, 424, 428], 160, 432)
  {
  }

  lemma ClosuresPlaced()
    ensures Placed(ClosureFields(), [432, 436, 440, 444, 488, 496], 432, 500)
  {
  }

  /** The buffers lie where the model has them, one behind the other, and mem_storage
      is the last. */
  lemma ChannelLayout()
    ensures
      var offsets := [0, 8, 16, 24, 32, 36, 40, 80] + [160, 416, 424, 428] + [432, 436, 440, 444, 488, 496]
                     + [Channel.ARG_STORAGE_AT, Channel.ARG_STORAGE_AT + 1024, ChunkedCopy.STORAGE_OFFSET];
      LaidOut(CallFields() + RequestFields() + ClosureFields() + Buffers(), offsets, Channel.CHANNEL_SIZE)
    ensures Marshal.ARG_STORAGE == 1024 && Channel.RESULT_STORAGE == 32 && ChunkedCopy.MEM_STORAGE == 4096
  {
    var xs := [0, 8, 16, 24, 32, 36, 40, 80];
    var ys := [160, 416, 424, 428];
    var us := [432, 436, 440, 444, 488, 496];
    var zs := [Channel.ARG_STORAGE_AT, Channel.ARG_STORAGE_AT + 1024, ChunkedCopy.STORAGE_OFFSET];
    CallPlaced();
    RequestsPlaced();
    ClosuresPlaced();
    PlacedOn(CallFields(), xs, 0, 160, RequestFields(), ys, 160, 432);
    PlacedOn(CallFields() + RequestFields(), xs + ys, 0, 432, ClosureFields(), us, 432, 500);
    assert Placed(Buffers(), zs, 500, 5652);
    PlacedOn(CallFields() + RequestFields() + ClosureFields(), xs + ys + us, 0, 500, Buffers(), zs, 500, 5652);
  }

  /** The kernel's struct seccomp_data: number, architecture, instruction pointer
      and six arguments. */
  lemma FilterLayout()
    ensures LaidOut([INT, INT, WORD, Words(6)], [Seccomp.OFFSET_NR, Seccomp.OFFSET_ARCH, 8, Seccomp.OFFSET_ARG0], 64)
  {
  }
}
