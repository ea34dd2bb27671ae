/** A leaf opening: the authenticated record of one leaf of the indexed
    sparse Merkle trie, linking it to its neighbours in hashed-key order.

    The class that defines it in the repository is not part of this model.
    The model gives it the four fields a leaf opening carries (previous and
    next leaf index, hashed key, value hash) and a fixed 128-byte layout of
    its own: four 32-byte words, the two indices big-endian, then the two
    hashes. The traces rely on two laws of this codec, both proved here for
    this layout rather than assumed: decoding undoes encoding
    (`DecodeEncode`), and decoding is canonical, so bytes that decode at all
    are the encoding of what they decode to (`EncodeDecode`). The second is
    what lets a trace decoder promise that it accepted exactly the list
    `writeTo` would write. */
module LeafOpenings {

  import opened ByteStrings
  import opened Rlp

  /** A leaf index: a non-negative Java long. */
  type LeafIndex = x: int | 0 <= x < 0x8000_0000_0000_0000

  datatype LeafOpening = LeafOpening(prevLeaf: LeafIndex, nextLeaf: LeafIndex, hkey: Hash, hval: Hash)

  const ENCODED_SIZE: nat := 128

  /** A leaf index as one 32-byte word. */
  function IndexWord(x: LeafIndex): (w: seq<byte>)
    ensures |w| == 32 && FromBigEndian(w) == x
  {
    Pow256Of8();
    Pow256Monotonic(8, 32);
    FromBigEndianOfBigEndian(x, 32);
    BigEndian(x, 32)
  }

  /** A word that holds a leaf index is the word of that index. */
  lemma IndexWordOfWord(w: seq<byte>)
    requires |w| == 32 && FromBigEndian(w) < TWO_63
    ensures IndexWord(FromBigEndian(w)) == w
  {
    BigEndianOfFromBigEndian(w);
  }

  /** `getEncodesBytes`. */
  function Encode(lo: LeafOpening): (bs: seq<byte>)
    ensures |bs| == ENCODED_SIZE
  {
    IndexWord(lo.prevLeaf) + IndexWord(lo.nextLeaf) + lo.hkey + lo.hval
  }

  /** `LeafOpening.readFrom(bytes)`: exactly 128 bytes, and each index word
      must hold a non-negative long. */
  function Decode(bs: seq<byte>): (r: Result<LeafOpening>)
    ensures r.Err? ==> r.error == MalformedLeafOpening
  {
    if |bs| != ENCODED_SIZE then Err(MalformedLeafOpening)
    else
      var prev, next := FromBigEndian(bs[..32]), FromBigEndian(bs[32..64]);
      if prev >= TWO_63 || next >= TWO_63 then Err(MalformedLeafOpening)
      else Ok(LeafOpening(prev, next, bs[64..96], bs[96..]))
  }

  /** Decoding undoes encoding. */
  lemma DecodeEncode(lo: LeafOpening)
    ensures Decode(Encode(lo)) == Ok(lo)
  {
    var bs := Encode(lo);
    assert bs[..32] == IndexWord(lo.prevLeaf);
    assert bs[32..64] == IndexWord(lo.nextLeaf);
    assert bs[64..96] == lo.hkey;
    assert bs[96..] == lo.hval;
  }

  /** Encoding undoes decoding: the layout is canonical, so a byte string
      that decodes at all is the encoding of what it decodes to. */
  lemma EncodeDecode(bs: seq<byte>)
    requires Decode(bs).Ok?
    ensures Encode(Decode(bs).value) == bs
  {
    var lo := Decode(bs).value;
    IndexWordOfWord(bs[..32]);
    IndexWordOfWord(bs[32..64]);
    assert bs == bs[..32] + bs[32..64] + bs[64..96] + bs[96..];
  }

  /** `out.writeBytes(leaf.getEncodesBytes())`. */
  function LeafOpeningItem(lo: LeafOpening): (item: Item)
    ensures item.Bytes? && |item.bytes| == ENCODED_SIZE
  {
    Bytes(Encode(lo))
  }

  /** `LeafOpening.readFrom(in.readBytes())`. */
  function ReadLeafOpening(s: seq<Item>, pos: nat): (r: Result<Parsed<LeafOpening>>)
    ensures r.Ok? ==> pos < |s| && s[pos] == LeafOpeningItem(r.value.val) && r.value.next == pos + 1
  {
    var b :- ReadBytes(s, pos);
    var lo :- Decode(b.val);
    EncodeDecode(b.val);
    Ok(Parsed(lo, b.next))
  }

  lemma ReadLeafOpeningOfWritten(s: seq<Item>, pos: nat, lo: LeafOpening)
    requires pos < |s| && s[pos] == LeafOpeningItem(lo)
    ensures ReadLeafOpening(s, pos) == Ok(Parsed(lo, pos + 1))
  {
    DecodeEncode(lo);
  }
}
