/** `testHashCodeAndEquals`: two persons with equal but distinct name
    strings are deeply equal exactly when their pets are. */
module PersonTests {
  import opened ObjectGraph
  import opened Capabilities
  import opened Pairs
  import opened DeepEq
  import opened Bisimulation
  import opened TestFixtures

  // ------------------------------------------------------------ testHashCodeAndEquals

  function PersonNode(first: ObjId, last: ObjId, pet: ObjId): Node {
    Node(PersonClass, Plain(map[(PersonClass, "first") := Obj(first), (PersonClass, "last") := Obj(last),
                                (PersonClass, "pet") := Obj(pet), (PersonClass, "this$0") := Obj(0)]))
  }

  /** p1 = 1 and p2 = 2 with distinct but equal name strings; p2's pet is
      p1's pet 7 when `shared`, otherwise the pet 8 of another name. */
  function PersonObject(shared: bool, i: ObjId): Node {
    if i == 1 then PersonNode(3, 4, 7)
    else if i == 2 then PersonNode(5, 6, if shared then 7 else 8)
    else if i == 7 then PetNode(9, 10)
    else if i == 8 then PetNode(11, 12)
    else if i == 0 then TestInstance
    else Str
  }

  function PersonText(i: ObjId): Option<string> {
    if i == 3 || i == 5 then Some("John")
    else if i == 4 || i == 6 then Some("DeRegnaucourt")
    else if i == 9 then Some("Eddie")
    else if i == 11 then Some("Penny")
    else if i == 10 || i == 12 then Some("dog")
    else None
  }

  function PersonWorld(shared: bool, h: string -> Int32): World {
    World(HeapOf(13, (i: ObjId) => PersonObject(shared, i)), Table, TextEquals(PersonText), TextHash(PersonText, h))
  }

  lemma PersonWorldValid(shared: bool, h: string -> Int32)
    ensures ValidWorld(PersonWorld(shared, h)) && Ordered(PersonWorld(shared, h))
  {
    TableValid();
    forall i: ObjId | i < 13
      ensures Fits(Table, 13, PersonObject(shared, i))
      ensures !PersonObject(shared, i).shape.SetShape? && !PersonObject(shared, i).shape.MapShape?
    {
    }
    HeapOfValid(13, (i: ObjId) => PersonObject(shared, i), PersonWorld(shared, h));
  }

  /** What the proofs about the persons' heap use of it. */
  ghost predicate PersonFacts(w: World, shared: bool) {
    && ValidWorld(w) && Ordered(w) && w.table == Table
    && 1 in w.heap && w.heap[1] == PersonNode(3, 4, 7)
    && 2 in w.heap && w.heap[2] == PersonNode(5, 6, if shared then 7 else 8)
    && 7 in w.heap && w.heap[7] == PetNode(9, 10)
    && 8 in w.heap && w.heap[8] == PetNode(11, 12)
    && (forall i: ObjId :: 3 <= i <= 12 && i != 7 && i != 8 ==> i in w.heap && w.heap[i] == Str)
    && w.equals(3, 5) && w.equals(4, 6) && w.equals(9, 9) && w.equals(10, 10) && !w.equals(9, 11)
  }

  lemma PersonTexts(shared: bool, h: string -> Int32)
    ensures var w := PersonWorld(shared, h);
      w.equals(3, 5) && w.equals(4, 6) && w.equals(9, 9) && w.equals(10, 10) && !w.equals(9, 11)
  {
    TextEqualsIs(PersonText, 3, 5);
    TextEqualsIs(PersonText, 4, 6);
    TextEqualsIs(PersonText, 9, 9);
    TextEqualsIs(PersonText, 10, 10);
    TextEqualsIs(PersonText, 9, 11);
    assert "Eddie"[0] != "Penny"[0];
  }

  lemma PersonFactsHold(shared: bool, h: string -> Int32)
    ensures PersonFacts(PersonWorld(shared, h), shared)
  {
    PersonWorldValid(shared, h);
    var w := PersonWorld(shared, h);
    forall i: ObjId | 3 <= i <= 12 && i != 7 && i != 8
      ensures i in w.heap && w.heap[i] == Str
    {
      assert w.heap[i] == PersonObject(shared, i);
    }
    assert w.heap[1] == PersonObject(shared, 1) && w.heap[2] == PersonObject(shared, 2);
    assert w.heap[7] == PersonObject(shared, 7) && w.heap[8] == PersonObject(shared, 8);
    PersonTexts(shared, h);
  }

  lemma PersonPairs(a: ObjId, b: ObjId, c: ObjId, a': ObjId, b': ObjId, c': ObjId)
    ensures FieldPairs([Inst(PersonClass, "first"), Inst(PersonClass, "last"), Inst(PersonClass, "pet")],
                       PersonNode(a, b, c), PersonNode(a', b', c'))
         == [DualKey(Obj(a), Obj(a')), DualKey(Obj(b), Obj(b')), DualKey(Obj(c), Obj(c'))]
  {
    var n1, n2 := PersonNode(a, b, c), PersonNode(a', b', c');
    var f1, f2, f3 := Inst(PersonClass, "first"), Inst(PersonClass, "last"), Inst(PersonClass, "pet");
    FieldPairsCons(f3, [], n1, n2, Obj(c), Obj(c'));
    FieldPairsCons(f2, [f3], n1, n2, Obj(b), Obj(b'));
    FieldPairsCons(f1, [f2, f3], n1, n2, Obj(a), Obj(a'));
    assert [f1, f2, f3] == [f1] + [f2, f3] && [f2, f3] == [f2] + [f3] && [f3] == [f3] + [];
  }

  /** Two persons hand on their first names, last names and pets. */
  lemma PersonsKids(w: World, i: ObjId, j: ObjId, a: ObjId, b: ObjId, c: ObjId, a': ObjId, b': ObjId, c': ObjId)
    requires ValidWorld(w) && w.table == Table && i in w.heap && j in w.heap
    requires w.heap[i] == PersonNode(a, b, c) && w.heap[j] == PersonNode(a', b', c')
    ensures PairOk(w, DualKey(Obj(i), Obj(j))) && Local(w, DualKey(Obj(i), Obj(j)))
    ensures Kids(w, DualKey(Obj(i), Obj(j))) == [DualKey(Obj(a), Obj(a')), DualKey(Obj(b), Obj(b')), DualKey(Obj(c), Obj(c'))]
  {
    PersonFields();
    ClassCapabilities();
    PersonPairs(a, b, c, a', b', c');
    PlainPair(w, i, j, DeepFields(Table, PersonClass), [DualKey(Obj(a), Obj(a')), DualKey(Obj(b), Obj(b')), DualKey(Obj(c), Obj(c'))]);
  }

  /** The strings of the persons' heap. */
  lemma PersonStrings(w: World, shared: bool, i: ObjId)
    requires PersonFacts(w, shared) && 3 <= i <= 12 && i != 7 && i != 8
    ensures i in w.heap && w.heap[i] == Str
  {
  }

  lemma PersonsEqualIn(w: World, fuel: nat)
    requires PersonFacts(w, true)
    ensures DeepEquals(w, Obj(1), Obj(2), fuel).verdict == Equal
  {
    var r := {DualKey(Obj(1), Obj(2)), DualKey(Obj(3), Obj(5)), DualKey(Obj(4), Obj(6)), DualKey(Obj(7), Obj(7)),
              DualKey(Obj(9), Obj(9)), DualKey(Obj(10), Obj(10))};
    forall p | p in r
      ensures Consistent(w, r, p)
    {
      if p == DualKey(Obj(1), Obj(2)) {
        PersonsKids(w, 1, 2, 3, 4, 7, 5, 6, 7);
      } else if p == DualKey(Obj(7), Obj(7)) {
        PetsKids(w, 7, 7, 9, 10, 9, 10);
      } else {
        var i, j := p.key1.id, p.key2.id;
        PersonStrings(w, true, i);
        PersonStrings(w, true, j);
        StringConsistent(w, r, i, j);
      }
    }
    RelatedAreEqual(w, r, Obj(1), Obj(2), fuel);
  }

  lemma PersonsDifferIn(w: World, fuel: nat)
    requires PersonFacts(w, false)
    ensures DeepEquals(w, Obj(1), Obj(2), fuel).verdict == Unequal
  {
    DeepEqualsIsBisimilarity(w, Obj(1), Obj(2), fuel);
    if Bisimilar(w, Obj(1), Obj(2)) {
      var r :| Bisim(w, r) && DualKey(Obj(1), Obj(2)) in r;
      PersonsKids(w, 1, 2, 3, 4, 7, 5, 6, 8);
      KidRelated(w, r, DualKey(Obj(1), Obj(2)), DualKey(Obj(7), Obj(8)));
      PetsKids(w, 7, 8, 9, 10, 11, 12);
      KidRelated(w, r, DualKey(Obj(7), Obj(8)), DualKey(Obj(9), Obj(11)));
      PersonStrings(w, false, 9);
      PersonStrings(w, false, 11);
      StringPair(w, 9, 11);
      assert false;
    }
  }

  /** Once both persons share the pet they are deeply equal, though the
      name strings are different objects. */
  lemma PersonsSharingPetAreEqual(h: string -> Int32, fuel: nat)
    ensures ValidWorld(PersonWorld(true, h))
    ensures DeepEquals(PersonWorld(true, h), Obj(1), Obj(2), fuel).verdict == Equal
  {
    PersonFactsHold(true, h);
    PersonsEqualIn(PersonWorld(true, h), fuel);
  }

  /** With pets of different names they are not. */
  lemma PersonsWithDifferentPetsDiffer(h: string -> Int32, fuel: nat)
    ensures ValidWorld(PersonWorld(false, h))
    ensures DeepEquals(PersonWorld(false, h), Obj(1), Obj(2), fuel).verdict == Unequal
  {
    PersonFactsHold(false, h);
    PersonsDifferIn(PersonWorld(false, h), fuel);
  }
}
