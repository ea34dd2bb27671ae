/** A Merkle proof: the index of the leaf it opens and the sibling hashes on
    the path from that leaf to the sub-root.

    The class that defines it in the repository is not part of this model.
    The model writes a proof as the list [leafIndex, [sibling hashes]]. It
    proves that reading undoes writing, and that the decoder is canonical:
    whatever it accepts is exactly the list written for the proof it
    returns. */
module Proofs {

  import opened ByteStrings
  import opened Rlp

  datatype Proof = Proof(leafIndex: Long, siblings: seq<Hash>)

  /** The sibling hashes as the elements of a list, one byte string each. */
  function HashItems(hs: seq<Hash>): (r: seq<Item>)
  {
    seq(|hs|, i requires 0 <= i < |hs| => Bytes(hs[i]))
  }

  /** Reads every element of a list as a 32-byte hash. */
  function ReadHashes(items: seq<Item>): (r: Result<seq<Hash>>)
    ensures r.Ok? ==> HashItems(r.value) == items
    ensures (forall i | 0 <= i < |items| :: items[i].Bytes? && |items[i].bytes| == 32) ==> r.Ok?
  {
    if items == [] then Ok([])
    else
      var h :- ReadBytes32(items, 0);
      var rest :- ReadHashes(items[1..]);
      assert HashItems([h.val] + rest) == [items[0]] + items[1..];
      Ok([h.val] + rest)
  }

  lemma ReadHashesOfWritten(hs: seq<Hash>)
    ensures ReadHashes(HashItems(hs)) == Ok(hs)
  {
    var items := HashItems(hs);
    assert forall i | 0 <= i < |items| :: items[i] == Bytes(hs[i]);
    var r := ReadHashes(items);
    assert r.Ok?;
    assert |r.value| == |HashItems(r.value)| == |hs|;
    forall i | 0 <= i < |hs| ensures r.value[i] == hs[i] {
      assert HashItems(r.value)[i] == items[i];
    }
    assert r.value == hs;
  }

  /** `Proof.writeTo`: one list of two elements. */
  function ProofItem(p: Proof): (item: Item)
    ensures item.List? && |item.items| == 2
  {
    List([LongScalar(p.leafIndex), List(HashItems(p.siblings))])
  }

  /** `Proof.readFrom`: a list of exactly a long scalar and a list of hashes. */
  function ReadProof(s: seq<Item>, pos: nat): (r: Result<Parsed<Proof>>)
    ensures r.Ok? ==> pos < |s| && s[pos] == ProofItem(r.value.val) && r.value.next == pos + 1
  {
    var list :- EnterList(s, pos);
    var index :- ReadLongScalar(list.val, 0);
    var siblings :- EnterList(list.val, index.next);
    var hashes :- ReadHashes(siblings.val);
    if siblings.next != |list.val| then Err(NotAtEndOfList)
    else
      assert list.val == [LongScalar(index.val), List(HashItems(hashes))];
      Ok(Parsed(Proof(index.val, hashes), list.next))
  }

  lemma ReadProofOfWritten(s: seq<Item>, pos: nat, p: Proof)
    requires pos < |s| && s[pos] == ProofItem(p)
    ensures ReadProof(s, pos) == Ok(Parsed(p, pos + 1))
  {
    var fields := ProofItem(p).items;
    ReadLongScalarOfWritten(fields, 0, p.leafIndex);
    ReadHashesOfWritten(p.siblings);
  }
}
