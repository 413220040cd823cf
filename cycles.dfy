/** `testCycleHandlingEquals` and `testCycleHandlingHashCode`: rings of
    three `Cycle` objects whose `next` fields close a cycle.  The loop
    terminates on them, corresponding rings are deeply equal, rings
    entered at different points are not, and every object of one ring
    has the same deep hash. */
module CycleTests {
  import opened ObjectGraph
  import opened Capabilities
  import opened Pairs
  import opened DeepEq
  import opened Hashing
  import opened Bisimulation
  import opened TestFixtures

  function CycleNode(value: ObjId, next: ObjId): Node {
    Node(CycleClass, Plain(map[(CycleClass, "value") := Obj(value), (CycleClass, "next") := Obj(next),
                               (CycleClass, "this$0") := Obj(0)]))
  }

  /** a1 = 1, b1 = 2, c1 = 3 form the first ring, a2 = 7, b2 = 8, c2 = 9
      the second; their values are the strings 4 .. 6 and 10 .. 12. */
  function CycleObject(i: ObjId): Node {
    if i == 1 then CycleNode(4, 2)
    else if i == 2 then CycleNode(5, 3)
    else if i == 3 then CycleNode(6, 1)
    else if i == 7 then CycleNode(10, 8)
    else if i == 8 then CycleNode(11, 9)
    else if i == 9 then CycleNode(12, 7)
    else if i == 0 then TestInstance
    else Str
  }

  function CycleText(i: ObjId): Option<string> {
    if i == 4 || i == 10 then Some("foo")
    else if i == 5 || i == 11 then Some("bar")
    else if i == 6 || i == 12 then Some("baz")
    else None
  }

  /** Both rings (`n` = 13), or the first ring alone (`n` = 7). */
  function CycleWorld(n: nat, h: string -> Int32): World {
    World(HeapOf(n, (i: ObjId) => CycleObject(i)), Table, TextEquals(CycleText), TextHash(CycleText, h))
  }

  lemma CycleWorldValid(n: nat, h: string -> Int32)
    requires n == 7 || n == 13
    ensures ValidWorld(CycleWorld(n, h)) && Ordered(CycleWorld(n, h))
  {
    TableValid();
    forall i: ObjId | i < n
      ensures Fits(Table, n, CycleObject(i))
      ensures !CycleObject(i).shape.SetShape? && !CycleObject(i).shape.MapShape?
    {
    }
    HeapOfValid(n, (i: ObjId) => CycleObject(i), CycleWorld(n, h));
  }

  lemma CycleTexts(n: nat, h: string -> Int32)
    ensures var w := CycleWorld(n, h);
      && w.equals(4, 10) && w.equals(5, 11) && w.equals(6, 12)
      && !w.equals(4, 11) && !w.equals(5, 12) && !w.equals(6, 10)
  {
    TextEqualsIs(CycleText, 4, 10);
    TextEqualsIs(CycleText, 5, 11);
    TextEqualsIs(CycleText, 6, 12);
    TextEqualsIs(CycleText, 4, 11);
    TextEqualsIs(CycleText, 5, 12);
    TextEqualsIs(CycleText, 6, 10);
    assert "foo"[0] != "bar"[0] && "bar"[2] != "baz"[2] && "baz"[0] != "foo"[0];
  }

  /** What the proofs about the two rings use of their heap. */
  ghost predicate RingFacts(w: World) {
    && ValidWorld(w) && Ordered(w) && w.table == Table
    && 1 in w.heap && w.heap[1] == CycleNode(4, 2)
    && 2 in w.heap && w.heap[2] == CycleNode(5, 3)
    && 3 in w.heap && w.heap[3] == CycleNode(6, 1)
    && 7 in w.heap && w.heap[7] == CycleNode(10, 8)
    && 8 in w.heap && w.heap[8] == CycleNode(11, 9)
    && 9 in w.heap && w.heap[9] == CycleNode(12, 7)
    && (forall i: ObjId :: (4 <= i <= 6 || 10 <= i <= 12) ==> i in w.heap && w.heap[i] == Str)
    && w.equals(4, 10) && w.equals(5, 11) && w.equals(6, 12)
    && !w.equals(4, 11) && !w.equals(5, 12) && !w.equals(6, 10)
  }

  lemma RingFactsHold(h: string -> Int32)
    ensures RingFacts(CycleWorld(13, h))
  {
    CycleWorldValid(13, h);
    var w := CycleWorld(13, h);
    forall i: ObjId | 4 <= i <= 6 || 10 <= i <= 12
      ensures i in w.heap && w.heap[i] == Str
    {
      assert w.heap[i] == CycleObject(i);
    }
    assert w.heap[1] == CycleObject(1) && w.heap[2] == CycleObject(2) && w.heap[3] == CycleObject(3);
    assert w.heap[7] == CycleObject(7) && w.heap[8] == CycleObject(8) && w.heap[9] == CycleObject(9);
    CycleTexts(13, h);
  }

  lemma CyclePairs(a: ObjId, b: ObjId, a': ObjId, b': ObjId)
    ensures FieldPairs([Inst(CycleClass, "value"), Inst(CycleClass, "next")], CycleNode(a, b), CycleNode(a', b'))
         == [DualKey(Obj(a), Obj(a')), DualKey(Obj(b), Obj(b'))]
  {
    var n1, n2 := CycleNode(a, b), CycleNode(a', b');
    var f1, f2 := Inst(CycleClass, "value"), Inst(CycleClass, "next");
    FieldPairsCons(f2, [], n1, n2, Obj(b), Obj(b'));
    FieldPairsCons(f1, [f2], n1, n2, Obj(a), Obj(a'));
    assert [f1, f2] == [f1] + [f2] && [f2] == [f2] + [];
  }

  /** Two ring objects hand on their values and their successors. */
  lemma CyclesKids(w: World, i: ObjId, j: ObjId, a: ObjId, b: ObjId, a': ObjId, b': ObjId)
    requires ValidWorld(w) && w.table == Table && i in w.heap && j in w.heap
    requires w.heap[i] == CycleNode(a, b) && w.heap[j] == CycleNode(a', b')
    ensures PairOk(w, DualKey(Obj(i), Obj(j))) && Local(w, DualKey(Obj(i), Obj(j)))
    ensures Kids(w, DualKey(Obj(i), Obj(j))) == [DualKey(Obj(a), Obj(a')), DualKey(Obj(b), Obj(b'))]
  {
    CycleFields();
    ClassCapabilities();
    CyclePairs(a, b, a', b');
    PlainPair(w, i, j, DeepFields(Table, CycleClass), [DualKey(Obj(a), Obj(a')), DualKey(Obj(b), Obj(b'))]);
  }

  /** Corresponding objects of the rings are related. */
  ghost function RingRelation(): set<DualKey> {
    {DualKey(Obj(1), Obj(7)), DualKey(Obj(2), Obj(8)), DualKey(Obj(3), Obj(9)),
     DualKey(Obj(4), Obj(10)), DualKey(Obj(5), Obj(11)), DualKey(Obj(6), Obj(12))}
  }

  lemma RingRelationConsistent(w: World)
    requires RingFacts(w)
    ensures Bisim(w, RingRelation())
  {
    var r := RingRelation();
    forall p | p in r
      ensures Consistent(w, r, p)
    {
      if p == DualKey(Obj(1), Obj(7)) {
        CyclesKids(w, 1, 7, 4, 2, 10, 8);
      } else if p == DualKey(Obj(2), Obj(8)) {
        CyclesKids(w, 2, 8, 5, 3, 11, 9);
      } else if p == DualKey(Obj(3), Obj(9)) {
        CyclesKids(w, 3, 9, 6, 1, 12, 7);
      } else {
        StringConsistent(w, r, p.key1.id, p.key2.id);
      }
    }
  }

  lemma RingsEqualIn(w: World, fuel: nat)
    requires RingFacts(w)
    ensures DeepEquals(w, Obj(1), Obj(7), fuel).verdict == Equal
    ensures DeepEquals(w, Obj(2), Obj(8), fuel).verdict == Equal
    ensures DeepEquals(w, Obj(3), Obj(9), fuel).verdict == Equal
  {
    RingRelationConsistent(w);
    RelatedAreEqual(w, RingRelation(), Obj(1), Obj(7), fuel);
    RelatedAreEqual(w, RingRelation(), Obj(2), Obj(8), fuel);
    RelatedAreEqual(w, RingRelation(), Obj(3), Obj(9), fuel);
  }

  /** Entering the second ring one object later pairs values of
      different text: `(i, j)` hands on `(i + 3, j + 3)`. */
  lemma RingsShiftedDifferIn(w: World, i: ObjId, fuel: nat)
    requires RingFacts(w) && 1 <= i <= 3
    ensures DeepEquals(w, Obj(i), Obj(if i == 3 then 7 else i + 7), fuel).verdict == Unequal
  {
    var j := if i == 3 then 7 else i + 7;
    DeepEqualsIsBisimilarity(w, Obj(i), Obj(j), fuel);
    if Bisimilar(w, Obj(i), Obj(j)) {
      var r :| Bisim(w, r) && DualKey(Obj(i), Obj(j)) in r;
      var next, next' := if i == 3 then 1 else i + 1, if j == 9 then 7 else j + 1;
      CyclesKids(w, i, j, i + 3, next, j + 3, next');
      KidRelated(w, r, DualKey(Obj(i), Obj(j)), DualKey(Obj(i + 3), Obj(j + 3)));
      StringPair(w, i + 3, j + 3);
      assert false;
    }
  }

  /** a1 equals a2, b1 equals b2 and c1 equals c2 ... */
  lemma CorrespondingRingsAreEqual(h: string -> Int32, fuel: nat)
    ensures ValidWorld(CycleWorld(13, h))
    ensures DeepEquals(CycleWorld(13, h), Obj(1), Obj(7), fuel).verdict == Equal
    ensures DeepEquals(CycleWorld(13, h), Obj(2), Obj(8), fuel).verdict == Equal
    ensures DeepEquals(CycleWorld(13, h), Obj(3), Obj(9), fuel).verdict == Equal
  {
    RingFactsHold(h);
    RingsEqualIn(CycleWorld(13, h), fuel);
  }

  /** ... but a1 differs from b2, b1 from c2 and c1 from a2. */
  lemma ShiftedRingsDiffer(h: string -> Int32, fuel: nat)
    ensures ValidWorld(CycleWorld(13, h))
    ensures DeepEquals(CycleWorld(13, h), Obj(1), Obj(8), fuel).verdict == Unequal
    ensures DeepEquals(CycleWorld(13, h), Obj(2), Obj(9), fuel).verdict == Unequal
    ensures DeepEquals(CycleWorld(13, h), Obj(3), Obj(7), fuel).verdict == Unequal
  {
    RingFactsHold(h);
    RingsShiftedDifferIn(CycleWorld(13, h), 1, fuel);
    RingsShiftedDifferIn(CycleWorld(13, h), 2, fuel);
    RingsShiftedDifferIn(CycleWorld(13, h), 3, fuel);
  }

  // ------------------------------------------------------------ testCycleHandlingHashCode

  /** The first ring's texts are pairwise different. */
  lemma RingTextsDiffer(i: ObjId, j: ObjId)
    requires i < 7 && j < 7 && CycleText(i).Some? && CycleText(i) == CycleText(j)
    ensures i == j
  {
    assert "foo"[0] != "bar"[0] && "bar"[2] != "baz"[2] && "baz"[0] != "foo"[0];
  }

  /** What the proofs about the first ring's hashes use of its heap. */
  ghost predicate RingHashFacts(w: World) {
    && ValidWorld(w) && w.table == Table
    && (forall i :: i in w.heap ==> i < 7 && w.heap[i] == CycleObject(i))
    && 1 in w.heap && 2 in w.heap && 3 in w.heap
    && (forall i, j :: w.equals(i, j) ==> CycleText(i).Some? && CycleText(i) == CycleText(j))
  }

  lemma RingHashFactsHold(h: string -> Int32)
    ensures RingHashFacts(CycleWorld(7, h))
  {
    CycleWorldValid(7, h);
    var w := CycleWorld(7, h);
    forall i, j | w.equals(i, j)
      ensures CycleText(i).Some? && CycleText(i) == CycleText(j)
    {
      TextEqualsIs(CycleText, i, j);
    }
  }

  /** In the first ring alone no two objects are `HashSet`-equal: the
      three value strings have different texts. */
  lemma RingDedup(w: World)
    requires RingHashFacts(w)
    ensures IdentityDedup(w)
  {
    ClassCapabilities();
    forall o, k | o in w.heap && k in w.heap && HashSetEquals(w, o, k)
      ensures o == k
    {
      assert w.heap[o] == CycleObject(o);
      RingTextsDiffer(o, k);
    }
  }

  lemma CycleValues(a: ObjId, b: ObjId)
    ensures FieldValues([Inst(CycleClass, "value"), Inst(CycleClass, "next")], CycleNode(a, b)) == [Obj(a), Obj(b)]
  {
    var n := CycleNode(a, b);
    var f1, f2 := Inst(CycleClass, "value"), Inst(CycleClass, "next");
    FieldValuesSnoc([], f1, n, Obj(a));
    FieldValuesSnoc([f1], f2, n, Obj(b));
    assert [] + [f1] == [f1] && [f1] + [f2] == [f1, f2];
  }

  /** A ring object pushes its successor on top, then its value. */
  lemma RingHashKids(w: World, o: ObjId, a: ObjId, b: ObjId)
    requires ValidWorld(w) && w.table == Table && o in w.heap && w.heap[o] == CycleNode(a, b)
    ensures |HashChildren(w, o)| == 2 && HashChildren(w, o)[0] == Obj(b)
  {
    CycleFields();
    ClassCapabilities();
    var fs := DeepFields(Table, CycleClass);
    PlainHashKids(w, o, fs);
    CycleValues(a, b);
    ReverseIndex(FieldValues(fs, w.heap[o]), 0);
  }

  /** The successor of a visited ring object is visited. */
  lemma RingEdge(w: World, root: ObjId, o: ObjId, a: ObjId, b: ObjId)
    requires ValidWorld(w) && w.table == Table && root in w.heap && IdentityDedup(w)
    requires o in w.heap && w.heap[o] == CycleNode(a, b) && o in HashVisited(w, Obj(root))
    ensures b in HashVisited(w, Obj(root))
  {
    RingHashKids(w, o, a, b);
    DeepHashFollowsEdge(w, root, o, 0);
  }

  /** From any ring object the traversal reaches all three. */
  lemma RingReach(w: World, root: ObjId)
    requires RingHashFacts(w) && IdentityDedup(w) && 1 <= root <= 3
    ensures 1 in HashVisited(w, Obj(root)) && 2 in HashVisited(w, Obj(root)) && 3 in HashVisited(w, Obj(root))
  {
    assert w.heap[1] == CycleNode(4, 2) && w.heap[2] == CycleNode(5, 3) && w.heap[3] == CycleNode(6, 1);
    DeepHashReachable(w, root);
    if root == 1 {
      RingEdge(w, root, 1, 4, 2);
      RingEdge(w, root, 2, 5, 3);
    } else if root == 2 {
      RingEdge(w, root, 2, 5, 3);
      RingEdge(w, root, 3, 6, 1);
    } else {
      RingEdge(w, root, 3, 6, 1);
      RingEdge(w, root, 1, 4, 2);
    }
  }

  lemma RingHashesAgreeIn(w: World)
    requires RingHashFacts(w)
    ensures DeepHash(w, Obj(1)) == DeepHash(w, Obj(2)) == DeepHash(w, Obj(3))
  {
    RingDedup(w);
    RingReach(w, 1);
    RingReach(w, 2);
    RingReach(w, 3);
    DeepHashMutualReach(w, 1, 2);
    DeepHashMutualReach(w, 2, 3);
  }

  /** a, b and c have the same deep hash, whatever the string hashes. */
  lemma RingHashesAgree(h: string -> Int32)
    ensures ValidWorld(CycleWorld(7, h))
    ensures DeepHash(CycleWorld(7, h), Obj(1)) == DeepHash(CycleWorld(7, h), Obj(2)) == DeepHash(CycleWorld(7, h), Obj(3))
  {
    RingHashFactsHold(h);
    RingHashesAgreeIn(CycleWorld(7, h));
  }
}
