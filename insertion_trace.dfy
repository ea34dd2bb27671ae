/** The trace of an insertion into the indexed sparse Merkle trie: the
    sub-root before and after, the proofs of the two neighbours and of the
    new leaf, the inserted key and value, and the two neighbours' leaf
    openings as they were before the splice.

    A sub-root node is carried only as its hash: that is all `writeTo`
    writes of it, and `readFrom` rebuilds a node that holds nothing else. */
module InsertionTraces {

  import opened Wrappers
  import opened ByteStrings
  import opened Rlp
  import opened Proofs
  import opened LeafOpenings
  import opened TraceTypes

  /** A complete insertion trace: what `writeTo` writes and `readFrom` reads. */
  datatype Insertion = Insertion(
    newNextFreeNode: Long,
    oldSubRoot: Hash,
    newSubRoot: Hash,
    leftProof: Proof,
    newProof: Proof,
    rightProof: Proof,
    key: seq<byte>,
    value: seq<byte>,
    priorLeftLeaf: LeafOpening,
    priorRightLeaf: LeafOpening)

  const INSERTION_ARITY: nat := 10

  /** The one list `writeTo` emits: its ten elements in field order. */
  function InsertionItem(t: Insertion): (item: Item)
    ensures item.List? && |item.items| == INSERTION_ARITY
  {
    List([
      LongScalar(t.newNextFreeNode),
      Bytes(t.oldSubRoot),
      Bytes(t.newSubRoot),
      ProofItem(t.leftProof),
      ProofItem(t.newProof),
      ProofItem(t.rightProof),
      Bytes(t.key),
      Bytes(t.value),
      LeafOpeningItem(t.priorLeftLeaf),
      LeafOpeningItem(t.priorRightLeaf)])
  }

  /** `c` holds, in order, exactly the ten elements `writeTo` emits for `t`. */
  predicate InsertionElements(c: seq<Item>, t: Insertion) {
    && |c| == INSERTION_ARITY
    && c[0] == LongScalar(t.newNextFreeNode)
    && c[1] == Bytes(t.oldSubRoot)
    && c[2] == Bytes(t.newSubRoot)
    && c[3] == ProofItem(t.leftProof)
    && c[4] == ProofItem(t.newProof)
    && c[5] == ProofItem(t.rightProof)
    && c[6] == Bytes(t.key)
    && c[7] == Bytes(t.value)
    && c[8] == LeafOpeningItem(t.priorLeftLeaf)
    && c[9] == LeafOpeningItem(t.priorRightLeaf)
  }

  /** The ten elements in order make up the whole list `writeTo` emits. */
  lemma ItemOfInsertionElements(c: seq<Item>, t: Insertion)
    requires InsertionElements(c, t)
    ensures c == InsertionItem(t).items
  {
    var w := InsertionItem(t).items;
    assert |c| == |w|;
    forall i | 0 <= i < |c| ensures c[i] == w[i] {
    }
  }

  /** Conversely, the list `writeTo` emits has those ten elements. */
  lemma InsertionElementsOfItem(t: Insertion)
    ensures InsertionElements(InsertionItem(t).items, t)
  {
  }

  /** `readFrom`: enter the list at the cursor, read its fields, leave it.
      Decoding is strict: an item it accepts is exactly the list `writeTo`
      would write for the trace it reads, so every element has the kind of
      its field and nothing follows the tenth. For the proof and leaf-opening
      elements this rests on their decoders being canonical. */
  function ReadInsertion(s: seq<Item>, pos: nat): (r: Result<Parsed<Insertion>>)
    ensures r.Ok? ==> pos < |s| && s[pos] == InsertionItem(r.value.val) && r.value.next == pos + 1
  {
    var list :- EnterList(s, pos);
    var t :- ReadInsertionFields(list.val);
    ItemOfInsertionElements(list.val, t);
    Ok(Parsed(t, list.next))
  }

  /** The cursor steps of `readFrom` between `enterList` and `leaveList`:
      the counter and the two sub-root hashes, then the three proofs, then
      the key, the value and the two prior leaf openings, after which the
      list must be exhausted. */
  function ReadInsertionFields(c: seq<Item>): (r: Result<Insertion>)
    ensures r.Ok? ==> InsertionElements(c, r.value)
  {
    var newNextFreeNode :- ReadLongScalar(c, 0);
    var oldSubRoot :- ReadBytes32(c, newNextFreeNode.next);
    var newSubRoot :- ReadBytes32(c, oldSubRoot.next);
    var proofs :- ReadInsertionProofs(c, newSubRoot.next);
    var tail :- ReadInsertionTail(c, proofs.next);
    var (leftProof, newProof, rightProof) := proofs.val;
    var (key, value, priorLeftLeaf, priorRightLeaf) := tail;
    Ok(Insertion(newNextFreeNode.val, oldSubRoot.val, newSubRoot.val,
      leftProof, newProof, rightProof, key, value, priorLeftLeaf, priorRightLeaf))
  }

  /** Reads the left, new and right proofs. */
  function ReadInsertionProofs(c: seq<Item>, pos: nat): (r: Result<Parsed<(Proof, Proof, Proof)>>)
    ensures r.Ok? ==>
              && r.value.next == pos + 3 <= |c|
              && c[pos] == ProofItem(r.value.val.0)
              && c[pos + 1] == ProofItem(r.value.val.1)
              && c[pos + 2] == ProofItem(r.value.val.2)
  {
    var leftProof :- ReadProof(c, pos);
    var newProof :- ReadProof(c, leftProof.next);
    var rightProof :- ReadProof(c, newProof.next);
    Ok(Parsed((leftProof.val, newProof.val, rightProof.val), rightProof.next))
  }

  /** Reads the key, the value and the two prior leaf openings, then leaves
      the list, which must hold nothing more. */
  function ReadInsertionTail(c: seq<Item>, pos: nat): (r: Result<(seq<byte>, seq<byte>, LeafOpening, LeafOpening)>)
    ensures r.Ok? ==>
              && |c| == pos + 4
              && c[pos] == Bytes(r.value.0)
              && c[pos + 1] == Bytes(r.value.1)
              && c[pos + 2] == LeafOpeningItem(r.value.2)
              && c[pos + 3] == LeafOpeningItem(r.value.3)
  {
    var key :- ReadBytes(c, pos);
    var value :- ReadBytes(c, key.next);
    var priorLeftLeaf :- ReadLeafOpening(c, value.next);
    var priorRightLeaf :- ReadLeafOpening(c, priorLeftLeaf.next);
    if priorRightLeaf.next != |c| then Err(NotAtEndOfList)
    else Ok((key.val, value.val, priorLeftLeaf.val, priorRightLeaf.val))
  }

  lemma ReadInsertionProofsOfWritten(c: seq<Item>, pos: nat, left: Proof, middle: Proof, right: Proof)
    requires pos + 3 <= |c|
    requires c[pos] == ProofItem(left) && c[pos + 1] == ProofItem(middle) && c[pos + 2] == ProofItem(right)
    ensures ReadInsertionProofs(c, pos) == Ok(Parsed((left, middle, right), pos + 3))
  {
    ReadProofOfWritten(c, pos, left);
    ReadProofOfWritten(c, pos + 1, middle);
    ReadProofOfWritten(c, pos + 2, right);
  }

  lemma ReadInsertionTailOfWritten(c: seq<Item>, pos: nat, key: seq<byte>, value: seq<byte>,
                                   left: LeafOpening, right: LeafOpening)
    requires |c| == pos + 4
    requires c[pos] == Bytes(key) && c[pos + 1] == Bytes(value)
    requires c[pos + 2] == LeafOpeningItem(left) && c[pos + 3] == LeafOpeningItem(right)
    ensures ReadInsertionTail(c, pos) == Ok((key, value, left, right))
  {
    ReadLeafOpeningOfWritten(c, pos + 2, left);
    ReadLeafOpeningOfWritten(c, pos + 3, right);
  }

  /** Each of the ten elements `writeTo` emits reads back as the field of
      the same rank, and the list ends after the tenth. */
  lemma InsertionFieldsRoundTrip(c: seq<Item>, t: Insertion)
    requires InsertionElements(c, t)
    ensures ReadInsertionFields(c) == Ok(t)
  {
    ReadLongScalarOfWritten(c, 0, t.newNextFreeNode);
    assert ReadBytes32(c, 1) == Ok(Parsed(t.oldSubRoot, 2));
    assert ReadBytes32(c, 2) == Ok(Parsed(t.newSubRoot, 3));
    ReadInsertionProofsOfWritten(c, 3, t.leftProof, t.newProof, t.rightProof);
    ReadInsertionTailOfWritten(c, 6, t.key, t.value, t.priorLeftLeaf, t.priorRightLeaf);
  }

  /** Round trip: what `writeTo` wrote, `readFrom` reads back field for
      field, consuming exactly that one item. */
  lemma InsertionRoundTrip(s: seq<Item>, pos: nat, t: Insertion)
    requires pos < |s| && s[pos] == InsertionItem(t)
    ensures ReadInsertion(s, pos) == Ok(Parsed(t, pos + 1))
  {
    InsertionElementsOfItem(t);
    InsertionFieldsRoundTrip(s[pos].items, t);
  }

  /** A list of any other length than ten is refused. */
  lemma InsertionArity(s: seq<Item>, pos: nat)
    requires pos < |s| && s[pos].List? && |s[pos].items| != INSERTION_ARITY
    ensures ReadInsertion(s, pos).Err?
  {
  }

  /** The state of an `InsertionTrace` object: a Java reference field that
      is null is None. */
  datatype InsertionFields = InsertionFields(
    newNextFreeNode: Long,
    oldSubRoot: Option<Hash>,
    newSubRoot: Option<Hash>,
    leftProof: Option<Proof>,
    newProof: Option<Proof>,
    rightProof: Option<Proof>,
    key: Option<seq<byte>>,
    value: Option<seq<byte>>,
    priorLeftLeaf: Option<LeafOpening>,
    priorRightLeaf: Option<LeafOpening>)
  {
    /** No reference field is null, so the trace can be written. */
    predicate Complete() {
      && oldSubRoot.Some? && newSubRoot.Some?
      && leftProof.Some? && newProof.Some? && rightProof.Some?
      && key.Some? && value.Some?
      && priorLeftLeaf.Some? && priorRightLeaf.Some?
    }

    function Value(): (t: Insertion)
      requires Complete()
    {
      Insertion(newNextFreeNode, oldSubRoot.value, newSubRoot.value,
        leftProof.value, newProof.value, rightProof.value, key.value, value.value,
        priorLeftLeaf.value, priorRightLeaf.value)
    }
  }

  /** The builder-style carrier the trie engine fills in during an insertion. */
  class InsertionTrace {
    var newNextFreeNode: Long
    var oldSubRoot: Option<Hash>
    var newSubRoot: Option<Hash>
    var leftProof: Option<Proof>
    var newProof: Option<Proof>
    var rightProof: Option<Proof>
    var key: Option<seq<byte>>
    var value: Option<seq<byte>>
    var priorLeftLeaf: Option<LeafOpening>
    var priorRightLeaf: Option<LeafOpening>

    function Fields(): (f: InsertionFields)
      reads this
    {
      InsertionFields(newNextFreeNode, oldSubRoot, newSubRoot, leftProof, newProof,
        rightProof, key, value, priorLeftLeaf, priorRightLeaf)
    }

    /** The full constructor stores each argument in the field of its name. */
    constructor (newNextFreeNode: Long, oldSubRoot: Option<Hash>, newSubRoot: Option<Hash>,
                 leftProof: Option<Proof>, newProof: Option<Proof>, rightProof: Option<Proof>,
                 key: Option<seq<byte>>, value: Option<seq<byte>>,
                 priorLeftLeaf: Option<LeafOpening>, priorRightLeaf: Option<LeafOpening>)
      ensures Fields() == InsertionFields(newNextFreeNode, oldSubRoot, newSubRoot, leftProof,
        newProof, rightProof, key, value, priorLeftLeaf, priorRightLeaf)
    {
      this.newNextFreeNode := newNextFreeNode;
      this.oldSubRoot := oldSubRoot;
      this.newSubRoot := newSubRoot;
      this.leftProof := leftProof;
      this.newProof := newProof;
      this.rightProof := rightProof;
      this.key := key;
      this.value := value;
      this.priorLeftLeaf := priorLeftLeaf;
      this.priorRightLeaf := priorRightLeaf;
    }

    /** The builder constructor sets the old sub-root only; the long is 0
        and every other field null, as Java leaves them. */
    constructor WithOldSubRoot(oldSubRoot: Option<Hash>)
      ensures Fields() == InsertionFields(0, oldSubRoot, None, None, None, None, None, None, None, None)
      ensures !Fields().Complete()
    {
      this.newNextFreeNode := 0;
      this.oldSubRoot := oldSubRoot;
      this.newSubRoot := None;
      this.leftProof := None;
      this.newProof := None;
      this.rightProof := None;
      this.key := None;
      this.value := None;
      this.priorLeftLeaf := None;
      this.priorRightLeaf := None;
    }

    function GetNewNextFreeNode(): (r: Long) reads this { newNextFreeNode }
    function GetOldSubRoot(): (r: Option<Hash>) reads this { oldSubRoot }
    function GetNewSubRoot(): (r: Option<Hash>) reads this { newSubRoot }
    function GetLeftProof(): (r: Option<Proof>) reads this { leftProof }
    function GetNewProof(): (r: Option<Proof>) reads this { newProof }
    function GetRightProof(): (r: Option<Proof>) reads this { rightProof }
    function GetKey(): (r: Option<seq<byte>>) reads this { key }
    function GetValue(): (r: Option<seq<byte>>) reads this { value }
    function GetPriorLeftLeaf(): (r: Option<LeafOpening>) reads this { priorLeftLeaf }
    function GetPriorRightLeaf(): (r: Option<LeafOpening>) reads this { priorRightLeaf }

    method SetKey(key: Option<seq<byte>>)
      modifies this
      ensures GetKey() == key
      ensures Fields() == old(Fields()).(key := key)
    {
      this.key := key;
    }

    method SetValue(value: Option<seq<byte>>)
      modifies this
      ensures GetValue() == value
      ensures Fields() == old(Fields()).(value := value)
    {
      this.value := value;
    }

    method SetNewNextFreeNode(newNextFreeNode: Long)
      modifies this
      ensures GetNewNextFreeNode() == newNextFreeNode
      ensures Fields() == old(Fields()).(newNextFreeNode := newNextFreeNode)
    {
      this.newNextFreeNode := newNextFreeNode;
    }

    method SetNewSubRoot(newSubRoot: Option<Hash>)
      modifies this
      ensures GetNewSubRoot() == newSubRoot
      ensures Fields() == old(Fields()).(newSubRoot := newSubRoot)
    {
      this.newSubRoot := newSubRoot;
    }

    method SetLeftProof(leftProof: Option<Proof>)
      modifies this
      ensures GetLeftProof() == leftProof
      ensures Fields() == old(Fields()).(leftProof := leftProof)
    {
      this.leftProof := leftProof;
    }

    method SetNewProof(newProof: Option<Proof>)
      modifies this
      ensures GetNewProof() == newProof
      ensures Fields() == old(Fields()).(newProof := newProof)
    {
      this.newProof := newProof;
    }

    method SetRightProof(rightProof: Option<Proof>)
      modifies this
      ensures GetRightProof() == rightProof
      ensures Fields() == old(Fields()).(rightProof := rightProof)
    {
      this.rightProof := rightProof;
    }

    method SetPriorLeftLeaf(priorLeftLeaf: Option<LeafOpening>)
      modifies this
      ensures GetPriorLeftLeaf() == priorLeftLeaf
      ensures Fields() == old(Fields()).(priorLeftLeaf := priorLeftLeaf)
    {
      this.priorLeftLeaf := priorLeftLeaf;
    }

    method SetPriorRightLeaf(priorRightLeaf: Option<LeafOpening>)
      modifies this
      ensures GetPriorRightLeaf() == priorRightLeaf
      ensures Fields() == old(Fields()).(priorRightLeaf := priorRightLeaf)
    {
      this.priorRightLeaf := priorRightLeaf;
    }

    /** The discriminant depends on no field: the function reads nothing. */
    function GetTransactionType(): (code: int)
      ensures code == INSERTION_TRACE_CODE && code != READ_ZERO_TRACE_CODE
    {
      INSERTION_TRACE_CODE
    }

    /** `writeTo`: appends exactly one list to the output, element by element
        between `startList` and `endList`. A null field would make Java throw
        before the list is ended, so every field must be set. */
    method WriteTo(out: seq<Item>) returns (written: seq<Item>)
      requires Fields().Complete()
      ensures written == out + [InsertionItem(Fields().Value())]
    {
      var list: seq<Item> := [];
      list := list + [LongScalar(newNextFreeNode)];
      list := list + [Bytes(oldSubRoot.value)];
      list := list + [Bytes(newSubRoot.value)];
      list := list + [ProofItem(leftProof.value)];
      list := list + [ProofItem(newProof.value)];
      list := list + [ProofItem(rightProof.value)];
      list := list + [Bytes(key.value)];
      list := list + [Bytes(value.value)];
      list := list + [LeafOpeningItem(priorLeftLeaf.value)];
      list := list + [LeafOpeningItem(priorRightLeaf.value)];
      assert list == InsertionItem(Fields().Value()).items;
      written := out + [List(list)];
    }

    /** `readFrom`: walks the cursor over the list at `pos` and builds a new
        trace with the full constructor; `next` is the cursor after the list.
        The sub-roots it builds hold only the hashes that were read. On an
        error Java throws and leaves its input part-way into the list; the
        model returns the error and, by its own convention, the cursor it
        started from. */
    static method ReadFrom(input: seq<Item>, pos: nat) returns (r: Result<InsertionTrace>, next: nat)
      ensures r.Ok? <==> ReadInsertion(input, pos).Ok?
      ensures r.Err? ==> r.error == ReadInsertion(input, pos).error && next == pos
      ensures r.Ok? ==>
                fresh(r.value) && r.value.Fields().Complete()
                && r.value.Fields().Value() == ReadInsertion(input, pos).value.val
                && next == ReadInsertion(input, pos).value.next
    {
      next := pos;
      var list :- EnterList(input, pos);
      var c := list.val;
      var newNextFreeNode :- ReadLongScalar(c, 0);
      var oldSubRoot :- ReadBytes32(c, newNextFreeNode.next);
      var newSubRoot :- ReadBytes32(c, oldSubRoot.next);
      var leftProof :- ReadProof(c, newSubRoot.next);
      var newProof :- ReadProof(c, leftProof.next);
      var rightProof :- ReadProof(c, newProof.next);
      var key :- ReadBytes(c, rightProof.next);
      var value :- ReadBytes(c, key.next);
      var priorLeftLeaf :- ReadLeafOpening(c, value.next);
      var priorRightLeaf :- ReadLeafOpening(c, priorLeftLeaf.next);
      if priorRightLeaf.next != |c| {
        return Err(NotAtEndOfList), pos;
      }
      var t := new InsertionTrace(newNextFreeNode.val, Some(oldSubRoot.val), Some(newSubRoot.val),
        Some(leftProof.val), Some(newProof.val), Some(rightProof.val), Some(key.val), Some(value.val),
        Some(priorLeftLeaf.val), Some(priorRightLeaf.val));
      r, next := Ok(t), list.next;
    }
  }

  /** A complete trace written to an empty output and read back is a new
      object that agrees with it on every field. */
  method WriteThenRead(t: InsertionTrace) returns (back: InsertionTrace)
    requires t.Fields().Complete()
    ensures fresh(back) && back.Fields() == t.Fields()
  {
    var out := t.WriteTo([]);
    InsertionRoundTrip(out, 0, t.Fields().Value());
    var r, next := InsertionTrace.ReadFrom(out, 0);
    back := r.value;
  }
}
