/** A class that overrides `hashCode` but not `equals`.  `deepEquals`
    compares its objects field by field, while `deepHashCode` adds their
    own `hashCode` and does not look inside them.  So two objects that
    `deepEquals` accepts can have different deep hashes. */
module OverrideTests {
  import opened ObjectGraph
  import opened Capabilities
  import opened Pairs
  import opened DeepEq
  import opened Hashing
  import opened TestFixtures

  const TaggedClass: ClassId := 1   // declares hashCode() only, and no fields

  const TaggedTable: ClassTable := [
    ClassInfo(None, false, false, [], PlainKind),
    ClassInfo(Some(ObjectClass), false, true, [], PlainKind)
  ]

  lemma TaggedTableFacts()
    ensures ValidTable(TaggedTable)
    ensures !CustomEquals(TaggedTable, TaggedClass) && CustomHashCode(TaggedTable, TaggedClass)
    ensures DeepFields(TaggedTable, TaggedClass) == []
  {
    CustomEqualsUnfold(TaggedTable, ObjectClass);
    CustomEqualsUnfold(TaggedTable, TaggedClass);
    CustomHashCodeUnfold(TaggedTable, ObjectClass);
    CustomHashCodeUnfold(TaggedTable, TaggedClass);
    assert DeepFields(TaggedTable, ObjectClass) == [];
  }

  const Tagged: Node := Node(TaggedClass, Plain(map[]))

  /** Objects 0 and 1 of that class, with the hash codes `h0` and `h1`;
      `equals` is Object's identity. */
  function TaggedWorld(h0: Int32, h1: Int32): World {
    World(HeapOf(2, (i: ObjId) => Tagged), TaggedTable, (i: ObjId, j: ObjId) => i == j,
          (i: ObjId) => if i == 0 then h0 else h1)
  }

  lemma TaggedWorldValid(h0: Int32, h1: Int32)
    ensures ValidWorld(TaggedWorld(h0, h1))
    ensures 0 in TaggedWorld(h0, h1).heap && TaggedWorld(h0, h1).heap[0] == Tagged
    ensures 1 in TaggedWorld(h0, h1).heap && TaggedWorld(h0, h1).heap[1] == Tagged
  {
    TaggedTableFacts();
    assert Fits(TaggedTable, 2, Tagged);
    HeapOfClosed(2, (i: ObjId) => Tagged, TaggedWorld(h0, h1));
  }

  /** The two objects are deeply equal, yet their deep hashes are their
      own hash codes, which may differ. */
  lemma EqualButHashedApart(h0: Int32, h1: Int32, fuel: nat)
    ensures ValidWorld(TaggedWorld(h0, h1))
    ensures DeepEquals(TaggedWorld(h0, h1), Obj(0), Obj(1), fuel).verdict == Equal
    ensures DeepHash(TaggedWorld(h0, h1), Obj(0)) == h0
    ensures DeepHash(TaggedWorld(h0, h1), Obj(1)) == h1
  {
    TaggedWorldValid(h0, h1);
    TaggedTableFacts();
    var w := TaggedWorld(h0, h1);
    var p := DualKey(Obj(0), Obj(1));
    FieldsCompared(w, p, [], {}, fuel);
    assert FieldPairs([], Tagged, Tagged) == [];
    assert Reverse(Unvisited([], {} + {p})) + [] == [];
    assert [p] + [] == [p];
    DeepHashCustomRoot(w, 0);
    DeepHashCustomRoot(w, 1);
  }
}
