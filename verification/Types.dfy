/** Scalar types that cross the sandbox boundary, and the bytes they travel as. */
module Types {

  newtype byte = x: int | 0 <= x < 256

  type Bytes = seq<byte>

  /** The type codes shared by the host (PBoxType) and the sandbox (DyfnType). */
  datatype Type =
    | Void
    | UInt8 | SInt8
    | UInt16 | SInt16
    | UInt32 | SInt32
    | UInt64 | SInt64
    | Float | Double
    | Pointer
  {
    function Size(): (n: nat)
      ensures n <= 8
    {
      match this
      case Void => 0
      case UInt8 | SInt8 => 1
      case UInt16 | SInt16 => 2
      case UInt32 | SInt32 | Float => 4
      case UInt64 | SInt64 | Double | Pointer => 8
    }

    predicate IsFloat() {
      Float? || Double?
    }
  }

  /** The contents of one 8-byte register or stack slot, low byte first. */
  type Slot = s: Bytes | |s| == 8 witness [0, 0, 0, 0, 0, 0, 0, 0]

  const ZERO_SLOT: Slot := [0, 0, 0, 0, 0, 0, 0, 0]

  /** memcpy(&slot, v, |v|): the low bytes are replaced, the others stay. */
  function Overlay(slot: Slot, v: Bytes): (r: Slot)
    requires |v| <= 8
    ensures r[..|v|] == v
  {
    v + slot[|v|..]
  }

  /** x is the value of a function that returns a ret in the register its class
      uses: xmm0 or d0 for float and double, rax or x0 for all others. */
  predicate ReturnValue(ret: Type, intVal: Slot, floatVal: Slot, x: Bytes) {
    match ret
    case Void => x == []
    case Float => x == floatVal[..4]
    case Double => x == floatVal
    case UInt8 | SInt8 => x == intVal[..1]
    case UInt16 | SInt16 => x == intVal[..2]
    case UInt32 | SInt32 => x == intVal[..4]
    case UInt64 | SInt64 | Pointer => x == intVal
  }

  /** The number a little-endian machine sees in a byte string. */
  function WordOf(bs: Bytes): nat {
    if bs == [] then 0 else bs[0] as nat + 256 * WordOf(bs[1..])
  }

  function BytesOf(w: nat, n: nat): (bs: Bytes)
    ensures |bs| == n
  {
    if n == 0 then [] else [(w % 256) as byte] + BytesOf(w / 256, n - 1)
  }

  lemma LowByte(b: byte, rest: nat)
    ensures (b as nat + 256 * rest) % 256 == b as nat && (b as nat + 256 * rest) / 256 == rest
  {
  }

  lemma {:induction false} WordRoundTrip(bs: Bytes)
    ensures BytesOf(WordOf(bs), |bs|) == bs
  {
    if bs != [] {
      var rest := WordOf(bs[1..]);
      WordRoundTrip(bs[1..]);
      LowByte(bs[0], rest);
      assert BytesOf(bs[0] as nat + 256 * rest, |bs|) == [bs[0]] + BytesOf(rest, |bs| - 1);
      assert bs == [bs[0]] + bs[1..];
    }
  }

  function Pow256(n: nat): nat {
    if n == 0 then 1 else 256 * Pow256(n - 1)
  }

  /** The byte at offset n has weight 256^n. */
  lemma {:induction false} WordOfAppend(a: Bytes, b: Bytes)
    ensures WordOf(a + b) == WordOf(a) + Pow256(|a|) * WordOf(b)
  {
    if a == [] {
      assert a + b == b;
    } else {
      WordOfAppend(a[1..], b);
      assert (a + b)[1..] == a[1..] + b;
      assert 256 * (Pow256(|a| - 1) * WordOf(b)) == Pow256(|a|) * WordOf(b);
    }
  }

  lemma {:induction false} ZeroWord(bs: Bytes)
    requires forall i | 0 <= i < |bs| :: bs[i] == 0
    ensures WordOf(bs) == 0
  {
    if bs != [] {
      ZeroWord(bs[1..]);
    }
  }

  lemma ZeroTail(v: Bytes, rest: Bytes)
    requires forall i | 0 <= i < |rest| :: rest[i] == 0
    ensures WordOf(v + rest) == WordOf(v)
  {
    WordOfAppend(v, rest);
    ZeroWord(rest);
  }

  /** A value copied into a cleared slot is zero-extended. */
  lemma ZeroExtends(slot: Slot, v: Bytes)
    requires |v| <= 8 && forall i | 0 <= i < 8 :: slot[i] == 0
    ensures WordOf(Overlay(slot, v)) == WordOf(v)
  {
    ZeroTail(v, slot[|v|..]);
  }

  /** The widths a C compiler for either architecture gives the types. */
  lemma WidthsAreC(t: Type)
    ensures t.Size() == 8 <==> t in {UInt64, SInt64, Double, Pointer}
    ensures t.Size() == 4 <==> t in {UInt32, SInt32, Float}
    ensures t.Size() == 2 <==> t in {UInt16, SInt16}
    ensures t.Size() == 1 <==> t in {UInt8, SInt8}
    ensures t.Size() == 0 <==> t == Void
  {
  }
}
