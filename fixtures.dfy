/** The JUnit scenarios of `DeepEqualsTest` as concrete heaps.  The
    test's classes are inner classes, so each of their objects carries the
    compiler-made `this$0` reference to the test instance; strings and
    boxed values are objects of classes with their own `equals` and
    `hashCode`, compared by their text; a slot holds one fixed box,
    where Java would box a primitive afresh on each read.  String hash codes are left as a
    parameter `h`. */
module TestFixtures {
  import opened ObjectGraph
  import opened Capabilities
  import opened Pairs
  import opened DeepEq
  import opened Hashing
  import opened Bisimulation

  const TestClass: ClassId := 1      // DeepEqualsTest, the enclosing instance
  const StringClass: ClassId := 2    // java.lang.String
  const PersonClass: ClassId := 3
  const PetClass: ClassId := 4
  const CycleClass: ClassId := 5
  const HierarchyClass: ClassId := 6 // FixedHierarchy
  const SmartPetClass: ClassId := 7  // SmartPet extends Pet
  const HashSetClass: ClassId := 8   // java.util.HashSet, with AbstractSet's equals and hashCode

  /** An instance field that `setAccessible` opens. */
  function Inst(owner: ClassId, name: string): Field {
    Field(owner, name, false, false, true)
  }

  const Table: ClassTable := [
    ClassInfo(None, false, false, [], PlainKind),
    ClassInfo(Some(ObjectClass), false, false, [], PlainKind),
    ClassInfo(Some(ObjectClass), true, true, [], PlainKind),
    ClassInfo(Some(ObjectClass), false, false,
      [Inst(PersonClass, "first"), Inst(PersonClass, "last"), Inst(PersonClass, "pet"), Inst(PersonClass, "this$0")], PlainKind),
    ClassInfo(Some(ObjectClass), false, false,
      [Inst(PetClass, "name"), Inst(PetClass, "type"), Inst(PetClass, "this$0")], PlainKind),
    ClassInfo(Some(ObjectClass), false, false,
      [Inst(CycleClass, "value"), Inst(CycleClass, "next"), Inst(CycleClass, "this$0")], PlainKind),
    ClassInfo(Some(ObjectClass), false, false,
      [Inst(HierarchyClass, "value"), Inst(HierarchyClass, "child1"), Inst(HierarchyClass, "child2"),
       Inst(HierarchyClass, "child3"), Inst(HierarchyClass, "this$0")], PlainKind),
    ClassInfo(Some(PetClass), true, true, [Inst(SmartPetClass, "this$0")], PlainKind),
    ClassInfo(Some(ObjectClass), true, true, [], SetKind)
  ]

  lemma TableValid()
    ensures ValidTable(Table)
  {
  }

  /** A class directly below Object overrides what it declares itself. */
  lemma OwnCapabilities(c: ClassId)
    requires ObjectClass < c < |Table| && Table[c].superclass == Some(ObjectClass)
    ensures ValidTable(Table)
    ensures CustomEquals(Table, c) == Table[c].declaresEquals
    ensures CustomHashCode(Table, c) == Table[c].declaresHashCode
  {
    TableValid();
    CustomEqualsUnfold(Table, ObjectClass);
    CustomHashCodeUnfold(Table, ObjectClass);
    CustomEqualsUnfold(Table, c);
    CustomHashCodeUnfold(Table, c);
  }

  /** Classes 3 to 6 compare field by field; String and SmartPet have
      their own `equals`. */
  lemma ClassCapabilities()
    ensures ValidTable(Table)
    ensures forall c :: PersonClass <= c <= HierarchyClass ==> !CustomEquals(Table, c) && !CustomHashCode(Table, c)
    ensures CustomEquals(Table, StringClass) && CustomHashCode(Table, StringClass)
    ensures CustomEquals(Table, SmartPetClass)
    ensures !CustomEquals(Table, TestClass) && !CustomHashCode(Table, TestClass)
  {
    TableValid();
    forall c | PersonClass <= c <= HierarchyClass
      ensures !CustomEquals(Table, c) && !CustomHashCode(Table, c)
    {
      OwnCapabilities(c);
    }
    OwnCapabilities(StringClass);
    OwnCapabilities(TestClass);
    CustomEqualsUnfold(Table, SmartPetClass);
  }

  lemma {:induction false} KeptAll(fs: seq<Field>)
    requires forall k :: 0 <= k < |fs| ==> Keep(fs[k])
    ensures Kept(fs) == fs
    decreases |fs|
  {
    if fs != [] {
      KeptAll(fs[..|fs| - 1]);
      assert fs[..|fs| - 1] + [fs[|fs| - 1]] == fs;
    }
  }

  /** The filter drops the trailing `this$0` of an inner class. */
  lemma KeptOuter(fs: seq<Field>, outer: Field)
    requires forall k :: 0 <= k < |fs| ==> Keep(fs[k])
    requires !Keep(outer)
    ensures Kept(fs + [outer]) == fs
  {
    assert (fs + [outer])[..|fs|] == fs;
    KeptAll(fs);
  }

  lemma OuterDropped(owner: ClassId)
    ensures !Keep(Inst(owner, "this$0"))
  {
    assert "this$0"[..5] == "this$";
  }

  /** A field of one of the test's own names is kept. */
  lemma NamedKept(owner: ClassId, name: string)
    requires |name| > 0 && (name[0] != 't' || |name| < 5)
    ensures Keep(Inst(owner, name))
  {
    if |name| >= 5 {
      assert name[..5][0] == name[0];
    }
  }

  /** An inner class directly below Object is compared on its declared
      fields without the trailing `this$0`. */
  lemma InnerFields(c: ClassId, fs: seq<Field>)
    requires ValidTable(Table) && ObjectClass < c < |Table| && Table[c].superclass == Some(ObjectClass)
    requires Table[c].declaredFields == fs + [Inst(c, "this$0")]
    requires forall k :: 0 <= k < |fs| ==> Keep(fs[k])
    ensures DeepFields(Table, c) == fs
  {
    OuterDropped(c);
    KeptOuter(fs, Inst(c, "this$0"));
    assert DeepFields(Table, ObjectClass) == [];
  }

  /** The fields the test classes are compared on: their own, without
      `this$0`. */
  lemma PersonFields()
    ensures ValidTable(Table)
    ensures DeepFields(Table, PersonClass) == [Inst(PersonClass, "first"), Inst(PersonClass, "last"), Inst(PersonClass, "pet")]
  {
    TableValid();
    NamedKept(PersonClass, "first");
    NamedKept(PersonClass, "last");
    NamedKept(PersonClass, "pet");
    var fs := [Inst(PersonClass, "first"), Inst(PersonClass, "last"), Inst(PersonClass, "pet")];
    assert Table[PersonClass].declaredFields == fs + [Inst(PersonClass, "this$0")];
    InnerFields(PersonClass, fs);
  }

  lemma PetFields()
    ensures ValidTable(Table)
    ensures DeepFields(Table, PetClass) == [Inst(PetClass, "name"), Inst(PetClass, "type")]
  {
    TableValid();
    NamedKept(PetClass, "name");
    NamedKept(PetClass, "type");
    var fs := [Inst(PetClass, "name"), Inst(PetClass, "type")];
    assert Table[PetClass].declaredFields == fs + [Inst(PetClass, "this$0")];
    InnerFields(PetClass, fs);
  }

  lemma CycleFields()
    ensures ValidTable(Table)
    ensures DeepFields(Table, CycleClass) == [Inst(CycleClass, "value"), Inst(CycleClass, "next")]
  {
    TableValid();
    NamedKept(CycleClass, "value");
    NamedKept(CycleClass, "next");
    var fs := [Inst(CycleClass, "value"), Inst(CycleClass, "next")];
    assert Table[CycleClass].declaredFields == fs + [Inst(CycleClass, "this$0")];
    InnerFields(CycleClass, fs);
  }

  lemma HierarchyFields()
    ensures ValidTable(Table)
    ensures DeepFields(Table, HierarchyClass) ==
      [Inst(HierarchyClass, "value"), Inst(HierarchyClass, "child1"), Inst(HierarchyClass, "child2"), Inst(HierarchyClass, "child3")]
  {
    TableValid();
    NamedKept(HierarchyClass, "value");
    NamedKept(HierarchyClass, "child1");
    NamedKept(HierarchyClass, "child2");
    NamedKept(HierarchyClass, "child3");
    var fs := [Inst(HierarchyClass, "value"), Inst(HierarchyClass, "child1"), Inst(HierarchyClass, "child2"), Inst(HierarchyClass, "child3")];
    assert Table[HierarchyClass].declaredFields == fs + [Inst(HierarchyClass, "this$0")];
    InnerFields(HierarchyClass, fs);
  }

  /** The heap `0 .. n - 1` given by `node`. */
  function HeapOf(n: nat, node: ObjId -> Node): Heap {
    map i: ObjId | i < n :: node(i)
  }

  /** Every reference of the shape is null or below `n`. */
  ghost predicate ShapeBelow(n: nat, s: Shape) {
    match s
    case ArrayShape(e) => forall k :: 0 <= k < |e| ==> e[k].Null? || e[k].id < n
    case SetShape(e) => forall k :: 0 <= k < |e| ==> e[k].Null? || e[k].id < n
    case ListShape(e) => forall k :: 0 <= k < |e| ==> e[k].Null? || e[k].id < n
    case MapShape(es) => forall k :: 0 <= k < |es| ==> (es[k].key.Null? || es[k].key.id < n) && (es[k].value.Null? || es[k].value.id < n)
    case Plain(slots) => forall key :: key in slots ==> slots[key].Null? || slots[key].id < n
  }

  /** Node `node` has a class of `t`, a shape of its kind, and refers only below `n`. */
  ghost predicate Fits(t: ClassTable, n: nat, node: Node) {
    node.cls < |t| && KindOf(node.shape) == t[node.cls].kind && ShapeBelow(n, node.shape)
  }

  /** A heap `0 .. n - 1` whose objects refer only below `n` is closed. */
  lemma HeapOfClosed(n: nat, node: ObjId -> Node, w: World)
    requires ValidTable(w.table) && w.heap == HeapOf(n, node)
    requires forall i: ObjId :: i < n ==> Fits(w.table, n, node(i))
    ensures ValidWorld(w)
  {
    forall i | i in w.heap
      ensures w.heap[i].cls < |w.table| && KindOf(w.heap[i].shape) == w.table[w.heap[i].cls].kind
      ensures ShapeClosed(w.heap, w.heap[i].shape)
    {
      assert w.heap[i] == node(i) && Fits(w.table, n, node(i));
    }
  }

  /** ... and without sets and maps it makes no nested probe. */
  lemma HeapOfValid(n: nat, node: ObjId -> Node, w: World)
    requires ValidTable(w.table) && w.heap == HeapOf(n, node)
    requires forall i: ObjId :: i < n ==> Fits(w.table, n, node(i))
    requires forall i: ObjId :: i < n ==> !node(i).shape.SetShape? && !node(i).shape.MapShape?
    ensures ValidWorld(w) && Ordered(w)
  {
    HeapOfClosed(n, node, w);
  }

  /** `String.equals` on the objects whose text is known. */
  function TextEquals(text: ObjId -> Option<string>): (ObjId, ObjId) -> bool {
    (i: ObjId, j: ObjId) => text(i).Some? && text(i) == text(j)
  }

  lemma TextEqualsIs(text: ObjId -> Option<string>, i: ObjId, j: ObjId)
    ensures TextEquals(text)(i, j) == (text(i).Some? && text(i) == text(j))
  {
  }

  /** `String.hashCode` through a hash `h` of the text. */
  function TextHash(text: ObjId -> Option<string>, h: string -> Int32): ObjId -> Int32 {
    (i: ObjId) => if text(i).Some? then h(text(i).value) else 0
  }

  lemma TextHashIs(text: ObjId -> Option<string>, h: string -> Int32, i: ObjId)
    ensures TextHash(text, h)(i) == if text(i).Some? then h(text(i).value) else 0
  {
  }

  const Str: Node := Node(StringClass, Plain(map[]))

  /** The enclosing test instance, object 0 of every scenario. */
  const TestInstance: Node := Node(TestClass, Plain(map[]))

  /** One field read on both sides hands on one pair. */
  lemma FieldPairsCons(f: Field, fs: seq<Field>, n1: Node, n2: Node, x: Ref, y: Ref)
    requires ReadField(f, n1) == Some(x) && ReadField(f, n2) == Some(y)
    ensures FieldPairs([f] + fs, n1, n2) == [DualKey(x, y)] + FieldPairs(fs, n1, n2)
  {
    assert ([f] + fs)[1..] == fs;
  }

  /** One more readable field adds its value at the end. */
  lemma FieldValuesSnoc(fs: seq<Field>, f: Field, n: Node, x: Ref)
    requires ReadField(f, n) == Some(x)
    ensures FieldValues(fs + [f], n) == FieldValues(fs, n) + [x]
  {
    assert (fs + [f])[..|fs|] == fs;
  }

  /** An object without a custom `hashCode` pushes its field values
      back to front. */
  lemma PlainHashKids(w: World, o: ObjId, fs: seq<Field>)
    requires ValidWorld(w) && o in w.heap && w.heap[o].shape.Plain? && !CustomHashCode(w.table, w.heap[o].cls)
    requires DeepFields(w.table, w.heap[o].cls) == fs
    ensures HashChildren(w, o) == Reverse(FieldValues(fs, w.heap[o]))
  {
  }

  /** A `Pet` of the test: name, type and the enclosing instance. */
  function PetNode(name: ObjId, kind: ObjId): Node {
    Node(PetClass, Plain(map[(PetClass, "name") := Obj(name), (PetClass, "type") := Obj(kind), (PetClass, "this$0") := Obj(0)]))
  }

  lemma PetPairs(a: ObjId, b: ObjId, a': ObjId, b': ObjId)
    ensures FieldPairs([Inst(PetClass, "name"), Inst(PetClass, "type")], PetNode(a, b), PetNode(a', b'))
         == [DualKey(Obj(a), Obj(a')), DualKey(Obj(b), Obj(b'))]
  {
    var n1, n2 := PetNode(a, b), PetNode(a', b');
    var f1, f2 := Inst(PetClass, "name"), Inst(PetClass, "type");
    FieldPairsCons(f2, [], n1, n2, Obj(b), Obj(b'));
    FieldPairsCons(f1, [f2], n1, n2, Obj(a), Obj(a'));
    assert [f1, f2] == [f1] + [f2] && [f2] == [f2] + [];
  }

  /** Two pets hand on their names and their types. */
  lemma PetsKids(w: World, i: ObjId, j: ObjId, a: ObjId, b: ObjId, a': ObjId, b': ObjId)
    requires ValidWorld(w) && w.table == Table && i in w.heap && j in w.heap
    requires w.heap[i] == PetNode(a, b) && w.heap[j] == PetNode(a', b')
    ensures PairOk(w, DualKey(Obj(i), Obj(j))) && Local(w, DualKey(Obj(i), Obj(j)))
    ensures Kids(w, DualKey(Obj(i), Obj(j))) == [DualKey(Obj(a), Obj(a')), DualKey(Obj(b), Obj(b'))]
  {
    PetFields();
    ClassCapabilities();
    PetPairs(a, b, a', b');
    PlainPair(w, i, j, DeepFields(Table, PetClass), [DualKey(Obj(a), Obj(a')), DualKey(Obj(b), Obj(b'))]);
  }

  /** A pet's field values, back to front: its type, then its name. */
  lemma PetValues(a: ObjId, b: ObjId)
    ensures Reverse(FieldValues([Inst(PetClass, "name"), Inst(PetClass, "type")], PetNode(a, b))) == [Obj(b), Obj(a)]
  {
    var n := PetNode(a, b);
    var f1, f2 := Inst(PetClass, "name"), Inst(PetClass, "type");
    FieldValuesSnoc([], f1, n, Obj(a));
    FieldValuesSnoc([f1], f2, n, Obj(b));
    assert [] + [f1] == [f1] && [f1] + [f2] == [f1, f2];
    ReverseIndex(FieldValues([f1, f2], n), 0);
    ReverseIndex(FieldValues([f1, f2], n), 1);
  }

  /** Which of two child pairs get pushed, and in which order. */
  lemma UnvisitedPair(x: DualKey, y: DualKey, v: set<DualKey>)
    ensures Unvisited([x, y], v) == (if x in v then [] else [x]) + (if y in v then [] else [y])
  {
    var a: seq<DualKey> := if x in v then [] else [x];
    var b: seq<DualKey> := if y in v then [] else [y];
    assert [x, y][0] == x && [x, y][1..] == [y] && [y][0] == y && [y][1..] == [];
    assert Unvisited([y], v) == b + Unvisited([], v);
    assert b + [] == b;
    assert Unvisited([x, y], v) == a + Unvisited([y], v);
  }

  /** What a pair of two child pairs pushes, the second one on top. */
  lemma PushedPair(x: DualKey, y: DualKey, v: set<DualKey>)
    ensures Reverse(Unvisited([x, y], v)) + [] == (if y in v then [] else [y]) + (if x in v then [] else [x])
  {
    UnvisitedPair(x, y, v);
    assert [x, y][..1] == [x] && [x][..0] == [] && [y][..0] == [];
  }

  /** Two objects of a class compared field by field: they pass their own
      checks and hand on the given pairs. */
  lemma PlainPair(w: World, i: ObjId, j: ObjId, fs: seq<Field>, ks: seq<DualKey>)
    requires ValidWorld(w) && i in w.heap && j in w.heap && w.heap[i].cls == w.heap[j].cls
    requires w.heap[i].shape.Plain? && !CustomEquals(w.table, w.heap[i].cls)
    requires DeepFields(w.table, w.heap[i].cls) == fs
    requires FieldPairs(fs, w.heap[i], w.heap[j]) == ks
    ensures PairOk(w, DualKey(Obj(i), Obj(j)))
    ensures Local(w, DualKey(Obj(i), Obj(j))) && Kids(w, DualKey(Obj(i), Obj(j))) == ks
  {
  }

  /** A pair of strings agrees exactly when their texts are equal, and
      hands on nothing. */
  lemma StringPair(w: World, i: ObjId, j: ObjId)
    requires ValidWorld(w) && w.table == Table && i in w.heap && j in w.heap
    requires w.heap[i] == Str && w.heap[j] == Str
    ensures PairOk(w, DualKey(Obj(i), Obj(j)))
    ensures Local(w, DualKey(Obj(i), Obj(j))) == w.equals(i, j)
    ensures Kids(w, DualKey(Obj(i), Obj(j))) == []
  {
    ClassCapabilities();
  }

  /** Two equal strings are consistent in any relation. */
  lemma StringConsistent(w: World, r: set<DualKey>, i: ObjId, j: ObjId)
    requires ValidWorld(w) && w.table == Table && i in w.heap && j in w.heap
    requires w.heap[i] == Str && w.heap[j] == Str && w.equals(i, j)
    ensures Consistent(w, r, DualKey(Obj(i), Obj(j)))
  {
    StringPair(w, i, j);
  }

  /** At the root, a class with its own `equals` decides the comparison
      alone. */
  lemma CustomRoot(w: World, i: ObjId, j: ObjId, fuel: nat)
    requires ValidWorld(w) && i in w.heap && j in w.heap && w.heap[i].cls == w.heap[j].cls
    requires w.heap[i].shape.Plain? && CustomEquals(w.table, w.heap[i].cls)
    ensures DeepEquals(w, Obj(i), Obj(j), fuel).verdict == if w.equals(i, j) then Equal else Unequal
  {
    var p := DualKey(Obj(i), Obj(j));
    CustomEqualsDecides(w, p, [], {}, fuel);
    assert [p] + [] == [p];
  }

  /** Two objects of a class with its own `equals` that says so are
      consistent in any relation. */
  lemma CustomConsistent(w: World, r: set<DualKey>, i: ObjId, j: ObjId)
    requires ValidWorld(w) && i in w.heap && j in w.heap && w.heap[i].cls == w.heap[j].cls
    requires w.heap[i].shape.Plain? && CustomEquals(w.table, w.heap[i].cls) && w.equals(i, j)
    ensures Consistent(w, r, DualKey(Obj(i), Obj(j)))
  {
  }

  /** Two nulls are consistent in any relation. */
  lemma NullConsistent(w: World, r: set<DualKey>)
    requires ValidWorld(w)
    ensures Consistent(w, r, DualKey(Null, Null))
  {
  }
}
