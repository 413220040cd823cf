/** Two lists that each hold only themselves.  Java cannot compare or
    hash them: `DualKey.hashCode` asks the list's own `hashCode()`, which
    recurses into the list until the stack overflows.  With `hashCode`
    taken as a total function, the model compares and hashes them. */
module SelfListTests {
  import opened ObjectGraph
  import opened Capabilities
  import opened Pairs
  import opened DeepEq
  import opened Hashing
  import opened WorkList
  import opened TestFixtures

  const ListClass: ClassId := 1   // ArrayList, seen as a collection

  const ListTable: ClassTable := [
    ClassInfo(None, false, false, [], PlainKind),
    ClassInfo(Some(ObjectClass), true, true, [], ListKind)
  ]

  /** Object 0 holds only itself, and so does object 1. */
  function SelfList(i: ObjId): Node {
    Node(ListClass, ListShape([Obj(i)]))
  }

  function SelfListWorld(eq: (ObjId, ObjId) -> bool, h: ObjId -> Int32): World {
    World(HeapOf(2, (i: ObjId) => SelfList(i)), ListTable, eq, h)
  }

  lemma SelfListWorldValid(eq: (ObjId, ObjId) -> bool, h: ObjId -> Int32)
    ensures ValidWorld(SelfListWorld(eq, h))
    ensures 0 in SelfListWorld(eq, h).heap && SelfListWorld(eq, h).heap[0] == SelfList(0)
    ensures 1 in SelfListWorld(eq, h).heap && SelfListWorld(eq, h).heap[1] == SelfList(1)
  {
    assert Fits(ListTable, 2, SelfList(0)) && Fits(ListTable, 2, SelfList(1));
    HeapOfClosed(2, (i: ObjId) => SelfList(i), SelfListWorld(eq, h));
  }

  /** The two lists are deeply equal at every fuel: the pair of their
      elements is the pair just marked.  Each hashes to 0, the list
      itself contributing nothing and its element being already seen. */
  lemma SelfListsCompared(eq: (ObjId, ObjId) -> bool, h: ObjId -> Int32, fuel: nat)
    ensures ValidWorld(SelfListWorld(eq, h))
    ensures DeepEq.DeepEquals(SelfListWorld(eq, h), Obj(0), Obj(1), fuel).verdict == Equal
    ensures DeepHash(SelfListWorld(eq, h), Obj(0)) == 0
  {
    SelfListWorldValid(eq, h);
    var w := SelfListWorld(eq, h);
    var p := DualKey(Obj(0), Obj(1));
    ElementsCompared(w, p, [], {}, fuel);
    assert Zip([Obj(0)], [Obj(1)]) == [p];
    assert Unvisited([p], {} + {p}) == [];
    assert [p] + [] == [p];
    var g := HashGraph(w);
    HashGraphIs(w);
    assert Children(g, 0) == [Obj(0)];
    RunVisit(g, [Obj(0)], {}, 0);
    assert Children(g, 0) + [Obj(0)][1..] == [Obj(0)];
    RunSkip(g, [Obj(0)], {0}, 0);
  }
}
