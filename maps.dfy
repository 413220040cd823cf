/** Maps whose keys are deeply equal without being the same object.  The
    map branch of `deepEquals` looks up every left key among the right
    keys with a nested `deepEquals`, takes the first one that accepts,
    and pushes the pair of the two values.  So two maps keyed by
    distinct but field-for-field equal keys are compared on their values,
    and a map holding two such keys is matched against itself with its
    values crossed. */
module MapTests {
  import opened ObjectGraph
  import opened Capabilities
  import opened Pairs
  import opened DeepEq
  import opened Hashing
  import opened TestFixtures

  const KeyClass: ClassId := 1      // a key class with one field and no equals of its own
  const TextClass: ClassId := 2     // java.lang.String
  const HashMapClass: ClassId := 3  // java.util.HashMap, with AbstractMap's equals and hashCode

  const IdField: Field := Field(KeyClass, "id", false, false, true)

  const MapTable: ClassTable := [
    ClassInfo(None, false, false, [], PlainKind),
    ClassInfo(Some(ObjectClass), false, false, [IdField], PlainKind),
    ClassInfo(Some(ObjectClass), true, true, [], PlainKind),
    ClassInfo(Some(ObjectClass), true, true, [], MapKind)
  ]

  /** Keys are compared on their one field; strings by their text. */
  lemma MapTableFacts()
    ensures ValidTable(MapTable)
    ensures !CustomEquals(MapTable, KeyClass) && DeepFields(MapTable, KeyClass) == [IdField]
    ensures CustomEquals(MapTable, TextClass)
  {
    CustomEqualsUnfold(MapTable, ObjectClass);
    CustomEqualsUnfold(MapTable, KeyClass);
    CustomEqualsUnfold(MapTable, TextClass);
    NamedKept(KeyClass, "id");
    assert Kept([IdField]) == Kept([]) + [IdField];
    assert DeepFields(MapTable, ObjectClass) == [];
  }

  /** A key whose `id` is the string `s`. */
  function KeyNode(s: ObjId): Node {
    Node(KeyClass, Plain(map[(KeyClass, "id") := Obj(s)]))
  }

  const Text: Node := Node(TextClass, Plain(map[]))

  /** What the comparisons use of the class table. */
  ghost predicate MapClasses(w: World) {
    && ValidWorld(w) && KeyClass < |w.table| && TextClass < |w.table|
    && !CustomEquals(w.table, KeyClass) && DeepFields(w.table, KeyClass) == [IdField]
    && CustomEquals(w.table, TextClass)
  }

  /** A pair of strings is decided by `String.equals`. */
  lemma TextProbe(w: World, i: ObjId, j: ObjId, rest: seq<DualKey>, v: set<DualKey>, fuel: nat)
    requires MapClasses(w) && i in w.heap && j in w.heap
    requires w.heap[i] == Text && w.heap[j] == Text
    ensures Run(w, [DualKey(Obj(i), Obj(j))] + rest, v, fuel) ==
      if w.equals(i, j) then Run(w, rest, v + {DualKey(Obj(i), Obj(j))}, fuel)
      else Comparison(Unequal, v + {DualKey(Obj(i), Obj(j))})
  {
    CustomEqualsDecides(w, DualKey(Obj(i), Obj(j)), rest, v, fuel);
  }

  /** Two keys sharing the string `s` are deeply equal, whatever was
      visited before; the probe marks the key pair and the string pair. */
  lemma KeyProbe(w: World, i: ObjId, j: ObjId, s: ObjId, v: set<DualKey>, fuel: nat)
    requires MapClasses(w) && i in w.heap && j in w.heap && s in w.heap
    requires w.heap[i] == KeyNode(s) && w.heap[j] == KeyNode(s) && w.heap[s] == Text && w.equals(s, s)
    ensures Run(w, [DualKey(Obj(i), Obj(j))], v, fuel) ==
      Comparison(Equal, v + {DualKey(Obj(i), Obj(j)), DualKey(Obj(s), Obj(s))})
  {
    var q, t := DualKey(Obj(i), Obj(j)), DualKey(Obj(s), Obj(s));
    FieldsCompared(w, q, [], v, fuel);
    FieldPairsCons(IdField, [], KeyNode(s), KeyNode(s), Obj(s), Obj(s));
    assert [IdField] + [] == [IdField] && [q] + [] == [q];
    var u := Unvisited([t], v + {q});
    assert [t][0] == t && [t][1..] == [];
    if t in v + {q} {
      assert u == [] && Reverse(u) + [] == [];
      assert v + {q} == v + {q, t};
    } else {
      assert u == [t] && Reverse(u) + [] == [t] + [];
      TextProbe(w, s, s, [], v + {q}, fuel);
      assert v + {q} + {t} == v + {q, t};
    }
  }

  // ------------------------------------------------------------ two maps, twin keys

  /** Map 0 = {key 2: string 4} and map 1 = {key 3: string 5}; the keys
      are distinct objects holding the same string 6. */
  function TwinKeysObject(i: ObjId): Node {
    if i == 0 then Node(HashMapClass, MapShape([Entry(Obj(2), Obj(4))]))
    else if i == 1 then Node(HashMapClass, MapShape([Entry(Obj(3), Obj(5))]))
    else if i == 2 || i == 3 then KeyNode(6)
    else Text
  }

  /** The values have the texts `t1` and `t2`. */
  function TwinKeysText(t1: string, t2: string, i: ObjId): Option<string> {
    if i == 4 then Some(t1) else if i == 5 then Some(t2) else if i == 6 then Some("k") else None
  }

  function TwinKeysWorld(t1: string, t2: string, h: ObjId -> Int32): World {
    World(HeapOf(7, (i: ObjId) => TwinKeysObject(i)), MapTable, TextEquals((i: ObjId) => TwinKeysText(t1, t2, i)), h)
  }

  lemma TwinKeysValid(t1: string, t2: string, h: ObjId -> Int32)
    ensures ValidWorld(TwinKeysWorld(t1, t2, h))
  {
    MapTableFacts();
    forall i: ObjId | i < 7
      ensures Fits(MapTable, 7, TwinKeysObject(i))
    {
    }
    HeapOfClosed(7, (i: ObjId) => TwinKeysObject(i), TwinKeysWorld(t1, t2, h));
  }

  /** What the comparison uses of that heap. */
  ghost predicate TwinFacts(w: World) {
    && MapClasses(w)
    && 0 in w.heap && w.heap[0] == TwinKeysObject(0) && 1 in w.heap && w.heap[1] == TwinKeysObject(1)
    && 2 in w.heap && w.heap[2] == KeyNode(6) && 3 in w.heap && w.heap[3] == KeyNode(6)
    && 4 in w.heap && w.heap[4] == Text && 5 in w.heap && w.heap[5] == Text
    && 6 in w.heap && w.heap[6] == Text && w.equals(6, 6)
  }

  lemma TwinFactsHold(t1: string, t2: string, h: ObjId -> Int32)
    ensures TwinFacts(TwinKeysWorld(t1, t2, h))
    ensures TwinKeysWorld(t1, t2, h).equals(4, 5) == (t1 == t2)
  {
    TwinKeysValid(t1, t2, h);
    MapTableFacts();
    var w := TwinKeysWorld(t1, t2, h);
    assert w.heap[0] == TwinKeysObject(0) && w.heap[1] == TwinKeysObject(1);
    assert w.heap[2] == KeyNode(6) && w.heap[3] == KeyNode(6);
    assert w.heap[4] == Text && w.heap[5] == Text && w.heap[6] == Text;
    TextEqualsIs((i: ObjId) => TwinKeysText(t1, t2, i), 6, 6);
    TextEqualsIs((i: ObjId) => TwinKeysText(t1, t2, i), 4, 5);
  }

  /** The left key is matched by the right key, and the value pair is
      pushed. */
  lemma TwinKeysMatched(w: World, fuel: nat)
    requires TwinFacts(w) && fuel >= 1
    ensures MatchEntries(w, [Entry(Obj(2), Obj(4))], 0, [Entry(Obj(3), Obj(5))], {DualKey(Obj(0), Obj(1))}, fuel, [])
         == Matching(Equal, {DualKey(Obj(0), Obj(1)), DualKey(Obj(2), Obj(3)), DualKey(Obj(6), Obj(6))}, [DualKey(Obj(4), Obj(5))])
  {
    var es1, es2 := [Entry(Obj(2), Obj(4))], [Entry(Obj(3), Obj(5))];
    var p := DualKey(Obj(0), Obj(1));
    assert KeysOf(es2) == [Obj(3)];
    KeyProbe(w, 2, 3, 6, {p}, fuel - 1);
    var v1 := {p, DualKey(Obj(2), Obj(3)), DualKey(Obj(6), Obj(6))};
    assert {p} + {DualKey(Obj(2), Obj(3)), DualKey(Obj(6), Obj(6))} == v1;
    ProbeAccepted(w, Obj(2), [Obj(3)], 0, {p}, fuel);
    EntryMatched(w, es1, 0, es2, {p}, fuel, []);
    assert DualKey(Obj(4), Obj(5)) !in v1;
  }

  /** The two maps are deeply equal exactly when their values are: the
      left key finds the right key by a nested deep comparison, and the
      values are then compared as a pair. */
  lemma TwinKeysDecidedByValues(w: World, fuel: nat)
    requires TwinFacts(w) && fuel >= 1
    ensures DeepEquals(w, Obj(0), Obj(1), fuel).verdict == if w.equals(4, 5) then Equal else Unequal
  {
    var p := DualKey(Obj(0), Obj(1));
    assert [p] + [] == [p] && {} + {p} == {p};
    assert Entries(w.heap[0].shape) == [Entry(Obj(2), Obj(4))] && Entries(w.heap[1].shape) == [Entry(Obj(3), Obj(5))];
    MapsCompared(w, p, [], {}, fuel);
    TwinKeysMatched(w, fuel);
    var v1 := {p, DualKey(Obj(2), Obj(3)), DualKey(Obj(6), Obj(6))};
    var dk := DualKey(Obj(4), Obj(5));
    assert DeepEquals(w, Obj(0), Obj(1), fuel) == Run(w, [dk], v1, fuel);
    TextProbe(w, 4, 5, [], v1, fuel);
    assert [dk] + [] == [dk];
  }

  /** The scenario with values of the texts `t1` and `t2`. */
  lemma TwinKeysCompared(t1: string, t2: string, h: ObjId -> Int32, fuel: nat)
    requires fuel >= 1
    ensures ValidWorld(TwinKeysWorld(t1, t2, h))
    ensures DeepEquals(TwinKeysWorld(t1, t2, h), Obj(0), Obj(1), fuel).verdict == if t1 == t2 then Equal else Unequal
  {
    TwinFactsHold(t1, t2, h);
    TwinKeysDecidedByValues(TwinKeysWorld(t1, t2, h), fuel);
  }

  // ------------------------------------------------------------ one map, twin keys

  /** Map 0 = {key 1: string 3, key 2: string 4} with the distinct keys 1
      and 2 holding the same string 5. */
  function SelfMapObject(i: ObjId): Node {
    if i == 0 then Node(HashMapClass, MapShape(SelfEntries()))
    else if i == 1 || i == 2 then KeyNode(5)
    else Text
  }

  function SelfMapText(i: ObjId): Option<string> {
    if i == 3 then Some("a") else if i == 4 then Some("b") else if i == 5 then Some("k") else None
  }

  function SelfMapWorld(h: ObjId -> Int32): World {
    World(HeapOf(6, (i: ObjId) => SelfMapObject(i)), MapTable, TextEquals(SelfMapText), h)
  }

  lemma SelfMapValid(h: ObjId -> Int32)
    ensures ValidWorld(SelfMapWorld(h))
  {
    MapTableFacts();
    forall i: ObjId | i < 6
      ensures Fits(MapTable, 6, SelfMapObject(i))
    {
    }
    HeapOfClosed(6, (i: ObjId) => SelfMapObject(i), SelfMapWorld(h));
  }

  /** What the comparison uses of that heap. */
  ghost predicate SelfMapFacts(w: World) {
    && MapClasses(w)
    && 0 in w.heap && w.heap[0] == SelfMapObject(0)
    && 1 in w.heap && w.heap[1] == KeyNode(5) && 2 in w.heap && w.heap[2] == KeyNode(5)
    && 3 in w.heap && w.heap[3] == Text && 4 in w.heap && w.heap[4] == Text
    && 5 in w.heap && w.heap[5] == Text && w.equals(5, 5) && !w.equals(4, 3)
  }

  lemma SelfMapFactsHold(h: ObjId -> Int32)
    ensures SelfMapFacts(SelfMapWorld(h))
  {
    SelfMapValid(h);
    MapTableFacts();
    var w := SelfMapWorld(h);
    assert w.heap[0] == SelfMapObject(0);
    assert w.heap[1] == KeyNode(5) && w.heap[2] == KeyNode(5);
    assert w.heap[3] == Text && w.heap[4] == Text && w.heap[5] == Text;
    TextEqualsIs(SelfMapText, 5, 5);
    TextEqualsIs(SelfMapText, 4, 3);
    assert "b"[0] != "a"[0];
  }

  /** The entries of the map. */
  function SelfEntries(): seq<Entry> {
    [Entry(Obj(1), Obj(3)), Entry(Obj(2), Obj(4))]
  }

  /** What the first key probe marks. */
  function FirstMarks(): set<DualKey> {
    {DualKey(Obj(0), Obj(0)), DualKey(Obj(1), Obj(1)), DualKey(Obj(5), Obj(5))}
  }

  /** Key 1 is matched by key 1, and the values (3, 3) are pushed. */
  lemma FirstKeyMatched(w: World, fuel: nat)
    requires SelfMapFacts(w) && fuel >= 1
    ensures MatchEntries(w, SelfEntries(), 0, SelfEntries(), {DualKey(Obj(0), Obj(0))}, fuel, [])
         == MatchEntries(w, SelfEntries(), 1, SelfEntries(), FirstMarks(), fuel, [DualKey(Obj(3), Obj(3))])
  {
    var es, p := SelfEntries(), DualKey(Obj(0), Obj(0));
    assert KeysOf(es) == [Obj(1), Obj(2)];
    KeyProbe(w, 1, 1, 5, {p}, fuel - 1);
    assert {p} + {DualKey(Obj(1), Obj(1)), DualKey(Obj(5), Obj(5))} == FirstMarks();
    ProbeAccepted(w, Obj(1), KeysOf(es), 0, {p}, fuel);
    EntryMatched(w, es, 0, es, {p}, fuel, []);
    assert DualKey(Obj(3), Obj(3)) !in FirstMarks();
  }

  /** Key 2 is matched by key 1 as well, and the values (4, 3) are
      pushed on top. */
  lemma SecondKeyMatched(w: World, fuel: nat)
    requires SelfMapFacts(w) && fuel >= 1
    ensures var m := MatchEntries(w, SelfEntries(), 1, SelfEntries(), FirstMarks(), fuel, [DualKey(Obj(3), Obj(3))]);
      m.verdict == Equal && m.stack == [DualKey(Obj(4), Obj(3)), DualKey(Obj(3), Obj(3))]
  {
    var es, v1 := SelfEntries(), FirstMarks();
    var d1 := DualKey(Obj(3), Obj(3));
    assert KeysOf(es) == [Obj(1), Obj(2)];
    KeyProbe(w, 2, 1, 5, v1, fuel - 1);
    var v2 := v1 + {DualKey(Obj(2), Obj(1)), DualKey(Obj(5), Obj(5))};
    ProbeAccepted(w, Obj(2), KeysOf(es), 0, v1, fuel);
    EntryMatched(w, es, 1, es, v1, fuel, [d1]);
    var d2 := DualKey(Obj(4), Obj(3));
    assert d2 !in v2;
    assert MatchEntries(w, es, 2, es, v2, fuel, [d2] + [d1]) == Matching(Equal, v2, [d2] + [d1]);
  }

  /** The map is not deeply equal to itself, although its two keys are
      deeply equal to each other. */
  lemma SelfMapUnequalIn(w: World, fuel: nat)
    requires SelfMapFacts(w) && fuel >= 1
    ensures DeepEquals(w, Obj(1), Obj(2), fuel).verdict == Equal
    ensures DeepEquals(w, Obj(0), Obj(0), fuel).verdict == Unequal
  {
    KeyProbe(w, 1, 2, 5, {}, fuel);
    var p := DualKey(Obj(0), Obj(0));
    var es := SelfEntries();
    assert [p] + [] == [p] && {} + {p} == {p};
    assert Entries(w.heap[0].shape) == es;
    MapsCompared(w, p, [], {}, fuel);
    FirstKeyMatched(w, fuel);
    SecondKeyMatched(w, fuel);
    var m := MatchEntries(w, es, 0, es, {p}, fuel, []);
    assert DeepEquals(w, Obj(0), Obj(0), fuel) == Run(w, m.stack, m.visited, fuel);
    TextProbe(w, 4, 3, [DualKey(Obj(3), Obj(3))], m.visited, fuel);
    assert m.stack == [DualKey(Obj(4), Obj(3))] + [DualKey(Obj(3), Obj(3))];
  }

  /** The scenario: its second key is first matched by its first key, so
      the values "b" and "a" are compared. */
  lemma SelfMapUnequal(h: ObjId -> Int32, fuel: nat)
    requires fuel >= 1
    ensures ValidWorld(SelfMapWorld(h))
    ensures DeepEquals(SelfMapWorld(h), Obj(1), Obj(2), fuel).verdict == Equal
    ensures DeepEquals(SelfMapWorld(h), Obj(0), Obj(0), fuel).verdict == Unequal
  {
    SelfMapFactsHold(h);
    SelfMapUnequalIn(SelfMapWorld(h), fuel);
  }
}
