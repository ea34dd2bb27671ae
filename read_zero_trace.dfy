/** The trace of a read of a key that is absent from the indexed sparse
    Merkle trie: the sub-root, the openings and proofs of the two leaves
    that bracket the key in hashed-key order, and the key itself.

    Unlike the insertion trace, the leaf openings are written before the
    proofs. The sub-root node is carried only as its hash. */
module ReadZeroTraces {

  import opened Wrappers
  import opened ByteStrings
  import opened Rlp
  import opened Proofs
  import opened LeafOpenings
  import opened TraceTypes

  /** A complete zero-read trace: what `writeTo` writes and `readFrom` reads. */
  datatype ReadZero = ReadZero(
    nextFreeNode: Long,
    subRoot: Hash,
    leftLeaf: LeafOpening,
    rightLeaf: LeafOpening,
    leftProof: Proof,
    rightProof: Proof,
    key: seq<byte>)

  const READ_ZERO_ARITY: nat := 7

  /** The one list `writeTo` emits: its seven elements in field order. */
  function ReadZeroItem(t: ReadZero): (item: Item)
    ensures item.List? && |item.items| == READ_ZERO_ARITY
  {
    List([
      LongScalar(t.nextFreeNode),
      Bytes(t.subRoot),
      LeafOpeningItem(t.leftLeaf),
      LeafOpeningItem(t.rightLeaf),
      ProofItem(t.leftProof),
      ProofItem(t.rightProof),
      Bytes(t.key)])
  }

  /** `c` holds, in order, exactly the seven elements `writeTo` emits for `t`. */
  predicate ReadZeroElements(c: seq<Item>, t: ReadZero) {
    && |c| == READ_ZERO_ARITY
    && c[0] == LongScalar(t.nextFreeNode)
    && c[1] == Bytes(t.subRoot)
    && c[2] == LeafOpeningItem(t.leftLeaf)
    && c[3] == LeafOpeningItem(t.rightLeaf)
    && c[4] == ProofItem(t.leftProof)
    && c[5] == ProofItem(t.rightProof)
    && c[6] == Bytes(t.key)
  }

  /** The seven elements in order make up the whole list `writeTo` emits. */
  lemma ItemOfReadZeroElements(c: seq<Item>, t: ReadZero)
    requires ReadZeroElements(c, t)
    ensures c == ReadZeroItem(t).items
  {
    var w := ReadZeroItem(t).items;
    assert |c| == |w|;
    forall i | 0 <= i < |c| ensures c[i] == w[i] {
    }
  }

  /** Conversely, the list `writeTo` emits has those seven elements. */
  lemma ReadZeroElementsOfItem(t: ReadZero)
    ensures ReadZeroElements(ReadZeroItem(t).items, t)
  {
  }

  /** `readFrom`: enter the list at the cursor, read its fields, leave it.
      Decoding is strict: an item it accepts is exactly the list `writeTo`
      would write for the trace it reads, so every element has the kind of
      its field and nothing follows the seventh. For the proof and leaf-opening
      elements this rests on their decoders being canonical. */
  function ReadReadZero(s: seq<Item>, pos: nat): (r: Result<Parsed<ReadZero>>)
    ensures r.Ok? ==> pos < |s| && s[pos] == ReadZeroItem(r.value.val) && r.value.next == pos + 1
  {
    var list :- EnterList(s, pos);
    var t :- ReadReadZeroFields(list.val);
    ItemOfReadZeroElements(list.val, t);
    Ok(Parsed(t, list.next))
  }

  /** The cursor steps of `readFrom` between `enterList` and `leaveList`:
      the seven fields in order, after which the list must be exhausted. */
  function ReadReadZeroFields(c: seq<Item>): (r: Result<ReadZero>)
    ensures r.Ok? ==> ReadZeroElements(c, r.value)
  {
    var nextFreeNode :- ReadLongScalar(c, 0);
    var subRoot :- ReadBytes32(c, nextFreeNode.next);
    var leftLeaf :- ReadLeafOpening(c, subRoot.next);
    var rightLeaf :- ReadLeafOpening(c, leftLeaf.next);
    var leftProof :- ReadProof(c, rightLeaf.next);
    var rightProof :- ReadProof(c, leftProof.next);
    var key :- ReadBytes(c, rightProof.next);
    if key.next != |c| then Err(NotAtEndOfList)
    else
      Ok(ReadZero(nextFreeNode.val, subRoot.val, leftLeaf.val, rightLeaf.val,
        leftProof.val, rightProof.val, key.val))
  }

  /** Each of the seven elements `writeTo` emits reads back as the field of
      the same rank, and the list ends after the seventh. */
  lemma ReadZeroFieldsRoundTrip(c: seq<Item>, t: ReadZero)
    requires ReadZeroElements(c, t)
    ensures ReadReadZeroFields(c) == Ok(t)
  {
    ReadLongScalarOfWritten(c, 0, t.nextFreeNode);
    assert ReadBytes32(c, 1) == Ok(Parsed(t.subRoot, 2));
    ReadLeafOpeningOfWritten(c, 2, t.leftLeaf);
    ReadLeafOpeningOfWritten(c, 3, t.rightLeaf);
    ReadProofOfWritten(c, 4, t.leftProof);
    ReadProofOfWritten(c, 5, t.rightProof);
    assert ReadBytes(c, 6) == Ok(Parsed(t.key, 7));
  }

  /** Round trip: what `writeTo` wrote, `readFrom` reads back field for
      field, consuming exactly that one item. */
  lemma ReadZeroRoundTrip(s: seq<Item>, pos: nat, t: ReadZero)
    requires pos < |s| && s[pos] == ReadZeroItem(t)
    ensures ReadReadZero(s, pos) == Ok(Parsed(t, pos + 1))
  {
    ReadZeroElementsOfItem(t);
    ReadZeroFieldsRoundTrip(s[pos].items, t);
  }

  /** A list of any other length than seven is refused. */
  lemma ReadZeroArity(s: seq<Item>, pos: nat)
    requires pos < |s| && s[pos].List? && |s[pos].items| != READ_ZERO_ARITY
    ensures ReadReadZero(s, pos).Err?
  {
  }

  /** The state of a `ReadZeroTrace` object: a Java reference field that is
      null is None. */
  datatype ReadZeroFields = ReadZeroFields(
    nextFreeNode: Long,
    subRoot: Option<Hash>,
    leftLeaf: Option<LeafOpening>,
    rightLeaf: Option<LeafOpening>,
    leftProof: Option<Proof>,
    rightProof: Option<Proof>,
    key: Option<seq<byte>>)
  {
    /** No reference field is null, so the trace can be written. */
    predicate Complete() {
      && subRoot.Some? && leftLeaf.Some? && rightLeaf.Some?
      && leftProof.Some? && rightProof.Some? && key.Some?
    }

    function Value(): (t: ReadZero)
      requires Complete()
    {
      ReadZero(nextFreeNode, subRoot.value, leftLeaf.value, rightLeaf.value,
        leftProof.value, rightProof.value, key.value)
    }
  }

  /** The builder-style carrier the trie engine fills in during a read of an
      absent key. */
  class ReadZeroTrace {
    var nextFreeNode: Long
    var subRoot: Option<Hash>
    var leftLeaf: Option<LeafOpening>
    var rightLeaf: Option<LeafOpening>
    var leftProof: Option<Proof>
    var rightProof: Option<Proof>
    var key: Option<seq<byte>>

    function Fields(): (f: ReadZeroFields)
      reads this
    {
      ReadZeroFields(nextFreeNode, subRoot, leftLeaf, rightLeaf, leftProof, rightProof, key)
    }

    /** The full constructor stores each argument in the field of its name. */
    constructor (nextFreeNode: Long, subRoot: Option<Hash>,
                 leftLeaf: Option<LeafOpening>, rightLeaf: Option<LeafOpening>,
                 leftProof: Option<Proof>, rightProof: Option<Proof>, key: Option<seq<byte>>)
      ensures Fields() == ReadZeroFields(nextFreeNode, subRoot, leftLeaf, rightLeaf,
        leftProof, rightProof, key)
    {
      this.nextFreeNode := nextFreeNode;
      this.subRoot := subRoot;
      this.leftLeaf := leftLeaf;
      this.rightLeaf := rightLeaf;
      this.leftProof := leftProof;
      this.rightProof := rightProof;
      this.key := key;
    }

    /** The builder constructor sets the sub-root only; the long is 0 and
        every other field null, as Java leaves them. */
    constructor WithSubRoot(subRoot: Option<Hash>)
      ensures Fields() == ReadZeroFields(0, subRoot, None, None, None, None, None)
      ensures !Fields().Complete()
    {
      this.nextFreeNode := 0;
      this.subRoot := subRoot;
      this.leftLeaf := None;
      this.rightLeaf := None;
      this.leftProof := None;
      this.rightProof := None;
      this.key := None;
    }

    function GetNextFreeNode(): (r: Long) reads this { nextFreeNode }
    function GetSubRoot(): (r: Option<Hash>) reads this { subRoot }
    function GetLeftLeaf(): (r: Option<LeafOpening>) reads this { leftLeaf }
    function GetRightLeaf(): (r: Option<LeafOpening>) reads this { rightLeaf }
    function GetLeftProof(): (r: Option<Proof>) reads this { leftProof }
    function GetRightProof(): (r: Option<Proof>) reads this { rightProof }
    function GetKey(): (r: Option<seq<byte>>) reads this { key }

    method SetNextFreeNode(nextFreeNode: Long)
      modifies this
      ensures GetNextFreeNode() == nextFreeNode
      ensures Fields() == old(Fields()).(nextFreeNode := nextFreeNode)
    {
      this.nextFreeNode := nextFreeNode;
    }

    method SetSubRoot(subRoot: Option<Hash>)
      modifies this
      ensures GetSubRoot() == subRoot
      ensures Fields() == old(Fields()).(subRoot := subRoot)
    {
      this.subRoot := subRoot;
    }

    method SetLeftLeaf(leftLeaf: Option<LeafOpening>)
      modifies this
      ensures GetLeftLeaf() == leftLeaf
      ensures Fields() == old(Fields()).(leftLeaf := leftLeaf)
    {
      this.leftLeaf := leftLeaf;
    }

    method SetRightLeaf(rightLeaf: Option<LeafOpening>)
      modifies this
      ensures GetRightLeaf() == rightLeaf
      ensures Fields() == old(Fields()).(rightLeaf := rightLeaf)
    {
      this.rightLeaf := rightLeaf;
    }

    method SetLeftProof(leftProof: Option<Proof>)
      modifies this
      ensures GetLeftProof() == leftProof
      ensures Fields() == old(Fields()).(leftProof := leftProof)
    {
      this.leftProof := leftProof;
    }

    method SetRightProof(rightProof: Option<Proof>)
      modifies this
      ensures GetRightProof() == rightProof
      ensures Fields() == old(Fields()).(rightProof := rightProof)
    {
      this.rightProof := rightProof;
    }

    method SetKey(key: Option<seq<byte>>)
      modifies this
      ensures GetKey() == key
      ensures Fields() == old(Fields()).(key := key)
    {
      this.key := key;
    }

    /** The discriminant depends on no field: the function reads nothing. */
    function GetTransactionType(): (code: int)
      ensures code == READ_ZERO_TRACE_CODE && code != INSERTION_TRACE_CODE
    {
      READ_ZERO_TRACE_CODE
    }

    /** `writeTo`: appends exactly one list to the output, element by element
        between `startList` and `endList`. A null field would make Java throw
        before the list is ended, so every field must be set. */
    method WriteTo(out: seq<Item>) returns (written: seq<Item>)
      requires Fields().Complete()
      ensures written == out + [ReadZeroItem(Fields().Value())]
    {
      var list: seq<Item> := [];
      list := list + [LongScalar(nextFreeNode)];
      list := list + [Bytes(subRoot.value)];
      list := list + [LeafOpeningItem(leftLeaf.value)];
      list := list + [LeafOpeningItem(rightLeaf.value)];
      list := list + [ProofItem(leftProof.value)];
      list := list + [ProofItem(rightProof.value)];
      list := list + [Bytes(key.value)];
      assert list == ReadZeroItem(Fields().Value()).items;
      written := out + [List(list)];
    }

    /** `readFrom`: walks the cursor over the list at `pos` and builds a new
        trace with the full constructor; `next` is the cursor after the list.
        The sub-root it builds holds only the hash that was read. On an
        error Java throws and leaves its input part-way into the list; the
        model returns the error and, by its own convention, the cursor it
        started from. */
    static method ReadFrom(input: seq<Item>, pos: nat) returns (r: Result<ReadZeroTrace>, next: nat)
      ensures r.Ok? <==> ReadReadZero(input, pos).Ok?
      ensures r.Err? ==> r.error == ReadReadZero(input, pos).error && next == pos
      ensures r.Ok? ==>
                fresh(r.value) && r.value.Fields().Complete()
                && r.value.Fields().Value() == ReadReadZero(input, pos).value.val
                && next == ReadReadZero(input, pos).value.next
    {
      next := pos;
      var list :- EnterList(input, pos);
      var c := list.val;
      var nextFreeNode :- ReadLongScalar(c, 0);
      var subRoot :- ReadBytes32(c, nextFreeNode.next);
      var leftLeaf :- ReadLeafOpening(c, subRoot.next);
      var rightLeaf :- ReadLeafOpening(c, leftLeaf.next);
      var leftProof :- ReadProof(c, rightLeaf.next);
      var rightProof :- ReadProof(c, leftProof.next);
      var key :- ReadBytes(c, rightProof.next);
      if key.next != |c| {
        return Err(NotAtEndOfList), pos;
      }
      var t := new ReadZeroTrace(nextFreeNode.val, Some(subRoot.val), Some(leftLeaf.val),
        Some(rightLeaf.val), Some(leftProof.val), Some(rightProof.val), Some(key.val));
      r, next := Ok(t), list.next;
    }
  }

  /** A complete trace written to an empty output and read back is a new
      object that agrees with it on every field. */
  method WriteThenRead(t: ReadZeroTrace) returns (back: ReadZeroTrace)
    requires t.Fields().Complete()
    ensures fresh(back) && back.Fields() == t.Fields()
  {
    var out := t.WriteTo([]);
    ReadZeroRoundTrip(out, 0, t.Fields().Value());
    var r, next := ReadZeroTrace.ReadFrom(out, 0);
    back := r.value;
  }
}
