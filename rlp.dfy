/** Recursive Length Prefix encoding (Ethereum Yellow Paper, Appendix B),
    seen as the item tree it serialises rather than as length-prefixed bytes.

    A trace is written to an output stream of items and read back from an
    input stream of items. Reading walks a cursor over the elements of one
    list: `enterList` opens the list at the cursor, each `readX` consumes one
    element, and `leaveList` insists that the cursor has reached the end of
    the list. */
module Rlp {

  import opened ByteStrings

  /** A 32-byte hash, as written by `writeBytes(node.getHash())` and read by
      `readBytes32`. */
  type Hash = s: seq<byte> | |s| == 32 witness ZeroHash()

  function ZeroHash(): (h: seq<byte>)
    ensures |h| == 32
  {
    seq(32, _ => 0)
  }

  const TWO_63: int := 0x8000_0000_0000_0000
  const TWO_64: int := 0x1_0000_0000_0000_0000

  /** A Java `long`. */
  type Long = x: int | -0x8000_0000_0000_0000 <= x < 0x8000_0000_0000_0000

  /** An RLP item: a byte string or a list of items. A scalar is a byte
      string read as an unsigned big-endian number. */
  datatype Item = Bytes(bytes: seq<byte>) | List(items: seq<Item>)

  /** The ways in which reading can fail (an `RLPException` in the source). */
  datatype Error =
    | EndOfList          // an element was expected, the list has no more
    | NotAScalar         // a scalar was expected, the element is a list
    | ScalarTooLarge     // a long scalar has more than 8 bytes
    | ScalarLeadingZeros // a scalar starts with a zero byte
    | NotBytes           // a byte string was expected
    | NotBytes32         // a byte string of exactly 32 bytes was expected
    | NotAList           // a list was expected
    | NotAtEndOfList     // `leaveList` found elements that were not read
    | MalformedLeafOpening

  datatype Result<+T> = Ok(value: T) | Err(error: Error) {

    predicate IsFailure() {
      Err?
    }

    function PropagateFailure<U>(): Result<U>
      requires Err?
    {
      Err(error)
    }

    function Extract(): T
      requires Ok?
    {
      value
    }
  }

  /** A value read from a list, and the position of the element after it. */
  datatype Parsed<+T> = Parsed(val: T, next: nat)

  /** The 64-bit two's complement pattern of a long, as an unsigned number. */
  function Unsigned64(x: Long): (u: nat)
    ensures u < TWO_64
    ensures x >= 0 ==> u == x
    ensures x < 0 ==> u >= TWO_63 && u - TWO_64 == x
  {
    if x < 0 then x + TWO_64 else x
  }

  /** `writeLongScalar`: the minimal bytes of the long's 64-bit pattern, so
      at most eight bytes, with no leading zero. */
  function LongScalar(x: Long): (item: Item)
    ensures item.Bytes? && |item.bytes| <= 8 && Canonical(item.bytes)
    ensures FromBigEndian(item.bytes) == Unsigned64(x)
  {
    Pow256Of8();
    MinimalBytesLength(Unsigned64(x), 8);
    Bytes(MinimalBytes(Unsigned64(x)))
  }

  /** `readLongScalar`: the element at the cursor must be a byte string of
      at most 8 bytes with no leading zero, whose 64 bits are read back as
      a long. */
  function ReadLongScalar(s: seq<Item>, pos: nat): (r: Result<Parsed<Long>>)
    ensures r.Ok? <==> pos < |s| && s[pos].Bytes? && |s[pos].bytes| <= 8 && Canonical(s[pos].bytes)
    ensures r.Ok? ==> s[pos] == LongScalar(r.value.val) && r.value.next == pos + 1
  {
    if pos >= |s| then Err(EndOfList)
    else match s[pos]
      case List(_) => Err(NotAScalar)
      case Bytes(b) =>
        if |b| > 8 then Err(ScalarTooLarge)
        else if !Canonical(b) then Err(ScalarLeadingZeros)
        else
          Pow256Monotonic(|b|, 8);
          Pow256Of8();
          MinimalBytesOfCanonical(b);
          var n := FromBigEndian(b);
          Ok(Parsed(if n < TWO_63 then n else n - TWO_64, pos + 1))
  }

  /** Every long comes back from its scalar. */
  lemma ReadLongScalarOfWritten(s: seq<Item>, pos: nat, x: Long)
    requires pos < |s| && s[pos] == LongScalar(x)
    ensures ReadLongScalar(s, pos) == Ok(Parsed(x, pos + 1))
  {
  }

  /** `readBytes`: the element at the cursor must be a byte string. */
  function ReadBytes(s: seq<Item>, pos: nat): (r: Result<Parsed<seq<byte>>>)
    ensures r.Ok? <==> pos < |s| && s[pos].Bytes?
    ensures r.Ok? ==> s[pos] == Bytes(r.value.val) && r.value.next == pos + 1
  {
    if pos >= |s| then Err(EndOfList)
    else match s[pos]
      case Bytes(b) => Ok(Parsed(b, pos + 1))
      case List(_) => Err(NotBytes)
  }

  /** `readBytes32`: the element at the cursor must be a byte string of
      exactly 32 bytes. */
  function ReadBytes32(s: seq<Item>, pos: nat): (r: Result<Parsed<Hash>>)
    ensures r.Ok? <==> pos < |s| && s[pos].Bytes? && |s[pos].bytes| == 32
    ensures r.Ok? ==> s[pos] == Bytes(r.value.val) && r.value.next == pos + 1
  {
    if pos >= |s| then Err(EndOfList)
    else match s[pos]
      case Bytes(b) => if |b| == 32 then Ok(Parsed(b, pos + 1)) else Err(NotBytes32)
      case List(_) => Err(NotBytes)
  }

  /** `enterList`: the element at the cursor must be a list; its elements
      are what the following reads walk over. */
  function EnterList(s: seq<Item>, pos: nat): (r: Result<Parsed<seq<Item>>>)
    ensures r.Ok? <==> pos < |s| && s[pos].List?
    ensures r.Ok? ==> s[pos] == List(r.value.val) && r.value.next == pos + 1
  {
    if pos >= |s| then Err(EndOfList)
    else match s[pos]
      case List(items) => Ok(Parsed(items, pos + 1))
      case Bytes(_) => Err(NotAList)
  }
}
