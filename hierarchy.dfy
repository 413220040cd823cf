/** `testHierarchyCycleEquals`: a root whose first and third children
    are the same object, with null grandchildren, in two copies. */
module HierarchyTests {
  import opened ObjectGraph
  import opened Capabilities
  import opened Pairs
  import opened DeepEq
  import opened Bisimulation
  import opened TestFixtures

  function HierNode(value: ObjId, c1: Ref, c2: Ref, c3: Ref): Node {
    Node(HierarchyClass, Plain(map[(HierarchyClass, "value") := Obj(value), (HierarchyClass, "child1") := c1,
                                   (HierarchyClass, "child2") := c2, (HierarchyClass, "child3") := c3,
                                   (HierarchyClass, "this$0") := Obj(0)]))
  }

  function Leaf(value: ObjId): Node {
    HierNode(value, Null, Null, Null)
  }

  /** h1 = 1 with children c1 = 2, c2 = 3, c1 again; h2 = 7 with k1 = 8,
      k2 = 9, k1 again; the values are the strings 4 .. 6 and 10 .. 12. */
  function HierObject(i: ObjId): Node {
    if i == 1 then HierNode(4, Obj(2), Obj(3), Obj(2))
    else if i == 2 then Leaf(5)
    else if i == 3 then Leaf(6)
    else if i == 7 then HierNode(10, Obj(8), Obj(9), Obj(8))
    else if i == 8 then Leaf(11)
    else if i == 9 then Leaf(12)
    else if i == 0 then TestInstance
    else Str
  }

  function HierText(i: ObjId): Option<string> {
    if i == 4 || i == 10 then Some("root")
    else if i == 5 || i == 11 then Some("child1")
    else if i == 6 || i == 12 then Some("child2")
    else None
  }

  function HierWorld(h: string -> Int32): World {
    World(HeapOf(13, (i: ObjId) => HierObject(i)), Table, TextEquals(HierText), TextHash(HierText, h))
  }

  lemma HierWorldValid(h: string -> Int32)
    ensures ValidWorld(HierWorld(h)) && Ordered(HierWorld(h))
  {
    TableValid();
    forall i: ObjId | i < 13
      ensures Fits(Table, 13, HierObject(i))
      ensures !HierObject(i).shape.SetShape? && !HierObject(i).shape.MapShape?
    {
    }
    HeapOfValid(13, (i: ObjId) => HierObject(i), HierWorld(h));
  }

  /** What the proof uses of the two hierarchies' heap. */
  ghost predicate HierFacts(w: World) {
    && ValidWorld(w) && Ordered(w) && w.table == Table
    && 1 in w.heap && w.heap[1] == HierNode(4, Obj(2), Obj(3), Obj(2))
    && 2 in w.heap && w.heap[2] == Leaf(5)
    && 3 in w.heap && w.heap[3] == Leaf(6)
    && 7 in w.heap && w.heap[7] == HierNode(10, Obj(8), Obj(9), Obj(8))
    && 8 in w.heap && w.heap[8] == Leaf(11)
    && 9 in w.heap && w.heap[9] == Leaf(12)
    && (forall i: ObjId :: (4 <= i <= 6 || 10 <= i <= 12) ==> i in w.heap && w.heap[i] == Str)
    && w.equals(4, 10) && w.equals(5, 11) && w.equals(6, 12)
  }

  lemma HierFactsHold(h: string -> Int32)
    ensures HierFacts(HierWorld(h))
  {
    HierWorldValid(h);
    var w := HierWorld(h);
    forall i: ObjId | 4 <= i <= 6 || 10 <= i <= 12
      ensures i in w.heap && w.heap[i] == Str
    {
      assert w.heap[i] == HierObject(i);
    }
    assert w.heap[1] == HierObject(1) && w.heap[2] == HierObject(2) && w.heap[3] == HierObject(3);
    assert w.heap[7] == HierObject(7) && w.heap[8] == HierObject(8) && w.heap[9] == HierObject(9);
    TextEqualsIs(HierText, 4, 10);
    TextEqualsIs(HierText, 5, 11);
    TextEqualsIs(HierText, 6, 12);
  }

  /** Each of the four compared fields reads its slot. */
  lemma HierReads(a: ObjId, b: Ref, c: Ref, d: Ref)
    ensures ReadField(Inst(HierarchyClass, "value"), HierNode(a, b, c, d)) == Some(Obj(a))
    ensures ReadField(Inst(HierarchyClass, "child1"), HierNode(a, b, c, d)) == Some(b)
    ensures ReadField(Inst(HierarchyClass, "child2"), HierNode(a, b, c, d)) == Some(c)
    ensures ReadField(Inst(HierarchyClass, "child3"), HierNode(a, b, c, d)) == Some(d)
  {
    assert "child1"[5] != "child2"[5] && "child2"[5] != "child3"[5] && "child1"[5] != "child3"[5];
  }

  lemma HierPairs(a: ObjId, b: Ref, c: Ref, d: Ref, a': ObjId, b': Ref, c': Ref, d': Ref)
    ensures FieldPairs([Inst(HierarchyClass, "value"), Inst(HierarchyClass, "child1"),
                        Inst(HierarchyClass, "child2"), Inst(HierarchyClass, "child3")],
                       HierNode(a, b, c, d), HierNode(a', b', c', d'))
         == [DualKey(Obj(a), Obj(a')), DualKey(b, b'), DualKey(c, c'), DualKey(d, d')]
  {
    var n1, n2 := HierNode(a, b, c, d), HierNode(a', b', c', d');
    var f1, f2 := Inst(HierarchyClass, "value"), Inst(HierarchyClass, "child1");
    var f3, f4 := Inst(HierarchyClass, "child2"), Inst(HierarchyClass, "child3");
    HierReads(a, b, c, d);
    HierReads(a', b', c', d');
    FieldPairsCons(f4, [], n1, n2, d, d');
    FieldPairsCons(f3, [f4], n1, n2, c, c');
    FieldPairsCons(f2, [f3, f4], n1, n2, b, b');
    FieldPairsCons(f1, [f2, f3, f4], n1, n2, Obj(a), Obj(a'));
    assert [f1, f2, f3, f4] == [f1] + [f2, f3, f4] && [f2, f3, f4] == [f2] + [f3, f4];
    assert [f3, f4] == [f3] + [f4] && [f4] == [f4] + [];
  }

  /** Two hierarchy nodes hand on their values and their three children. */
  lemma HiersKids(w: World, i: ObjId, j: ObjId, a: ObjId, b: Ref, c: Ref, d: Ref, a': ObjId, b': Ref, c': Ref, d': Ref)
    requires ValidWorld(w) && w.table == Table && i in w.heap && j in w.heap
    requires w.heap[i] == HierNode(a, b, c, d) && w.heap[j] == HierNode(a', b', c', d')
    ensures PairOk(w, DualKey(Obj(i), Obj(j))) && Local(w, DualKey(Obj(i), Obj(j)))
    ensures Kids(w, DualKey(Obj(i), Obj(j))) == [DualKey(Obj(a), Obj(a')), DualKey(b, b'), DualKey(c, c'), DualKey(d, d')]
  {
    HierarchyFields();
    ClassCapabilities();
    HierPairs(a, b, c, d, a', b', c', d');
    PlainPair(w, i, j, DeepFields(Table, HierarchyClass), [DualKey(Obj(a), Obj(a')), DualKey(b, b'), DualKey(c, c'), DualKey(d, d')]);
  }

  /** Corresponding nodes, their values and the null children. */
  ghost function HierRelation(): set<DualKey> {
    {DualKey(Obj(1), Obj(7)), DualKey(Obj(2), Obj(8)), DualKey(Obj(3), Obj(9)),
     DualKey(Obj(4), Obj(10)), DualKey(Obj(5), Obj(11)), DualKey(Obj(6), Obj(12)), DualKey(Null, Null)}
  }

  lemma HierRelationConsistent(w: World)
    requires HierFacts(w)
    ensures Bisim(w, HierRelation())
  {
    var r := HierRelation();
    forall p | p in r
      ensures Consistent(w, r, p)
    {
      if p == DualKey(Obj(1), Obj(7)) {
        HiersKids(w, 1, 7, 4, Obj(2), Obj(3), Obj(2), 10, Obj(8), Obj(9), Obj(8));
      } else if p == DualKey(Obj(2), Obj(8)) {
        HiersKids(w, 2, 8, 5, Null, Null, Null, 11, Null, Null, Null);
      } else if p == DualKey(Obj(3), Obj(9)) {
        HiersKids(w, 3, 9, 6, Null, Null, Null, 12, Null, Null, Null);
      } else if p == DualKey(Null, Null) {
        NullConsistent(w, r);
      } else {
        StringConsistent(w, r, p.key1.id, p.key2.id);
      }
    }
  }

  /** h1 and h2 are deeply equal. */
  lemma HierarchiesAreEqual(h: string -> Int32, fuel: nat)
    ensures ValidWorld(HierWorld(h))
    ensures DeepEquals(HierWorld(h), Obj(1), Obj(7), fuel).verdict == Equal
  {
    HierFactsHold(h);
    HierRelationConsistent(HierWorld(h));
    RelatedAreEqual(HierWorld(h), HierRelation(), Obj(1), Obj(7), fuel);
  }
}
