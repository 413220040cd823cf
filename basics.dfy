/** `testDeepEquals` (its `SmartPet` half), `testBasicEquals` and
    `testBasicHashCode`: objects whose class has its own `equals` or
    `hashCode` are judged by it alone. */
module BasicTests {
  import opened ObjectGraph
  import opened Capabilities
  import opened DeepEq
  import opened Hashing
  import opened TestFixtures

  // ------------------------------------------------------------ SmartPet

  function SmartPetNode(name: ObjId, kind: ObjId): Node {
    Node(SmartPetClass, Plain(map[(PetClass, "name") := Obj(name), (PetClass, "type") := Obj(kind),
                                  (PetClass, "this$0") := Obj(0), (SmartPetClass, "this$0") := Obj(0)]))
  }

  /** Two smart pets 1 and 2 named by the distinct strings 3 and 5,
      typed by the distinct strings 4 and 6. */
  function SmartPetObject(i: ObjId): Node {
    if i == 1 then SmartPetNode(3, 4)
    else if i == 2 then SmartPetNode(5, 6)
    else if i == 0 then TestInstance
    else Str
  }

  function SmartPetText(i: ObjId): Option<string> {
    if i == 3 || i == 5 then Some("Fido")
    else if i == 4 || i == 6 then Some("Terrier")
    else None
  }

  /** The test's comparison of one of a pet's strings: "different" for
      one null, otherwise the negation of `equals`. */
  function Differ(a: Option<string>, b: Option<string>): bool {
    if a.None? || b.None? then a != b else a.value != b.value
  }

  /** The deliberately wrong `SmartPet.equals`: true when both the names
      and the types differ; `String.equals` for the strings. */
  function SmartPetEquals(i: ObjId, j: ObjId): bool {
    if i == 1 || i == 2 then
      (j == 1 || j == 2) && Differ(SmartPetText(i + i + 1), SmartPetText(j + j + 1)) && Differ(SmartPetText(i + i + 2), SmartPetText(j + j + 2))
    else
      SmartPetText(i).Some? && SmartPetText(i) == SmartPetText(j)
  }

  function SmartPetWorld(h: ObjId -> Int32): World {
    World(HeapOf(7, (i: ObjId) => SmartPetObject(i)), Table, (i: ObjId, j: ObjId) => SmartPetEquals(i, j), h)
  }

  lemma SmartPetWorldValid(h: ObjId -> Int32)
    ensures ValidWorld(SmartPetWorld(h))
  {
    TableValid();
    forall i: ObjId | i < 7
      ensures Fits(Table, 7, SmartPetObject(i))
      ensures !SmartPetObject(i).shape.SetShape? && !SmartPetObject(i).shape.MapShape?
    {
    }
    HeapOfValid(7, (i: ObjId) => SmartPetObject(i), SmartPetWorld(h));
  }

  /** Its pathological `equals` is called, so two pets alike in every
      field are not deeply equal. */
  lemma SmartPetsDiffer(h: ObjId -> Int32, fuel: nat)
    ensures ValidWorld(SmartPetWorld(h))
    ensures DeepEquals(SmartPetWorld(h), Obj(1), Obj(2), fuel).verdict == Unequal
  {
    SmartPetWorldValid(h);
    ClassCapabilities();
    var w := SmartPetWorld(h);
    assert w.heap[1] == SmartPetNode(3, 4) && w.heap[2] == SmartPetNode(5, 6);
    assert !w.equals(1, 2);
    CustomRoot(w, 1, 2, fuel);
  }

  // ------------------------------------------------------------ testBasicEquals, testBasicHashCode

  /** The strings 1 = "One", 2 = "Two" and 3 = "One". */
  function BasicText(i: ObjId): Option<string> {
    if i == 1 || i == 3 then Some("One") else if i == 2 then Some("Two") else None
  }

  function BasicWorld(h: string -> Int32): World {
    World(HeapOf(4, (i: ObjId) => if i == 0 then TestInstance else Str), Table, TextEquals(BasicText), TextHash(BasicText, h))
  }

  lemma BasicWorldValid(h: string -> Int32)
    ensures ValidWorld(BasicWorld(h))
    ensures forall i: ObjId :: 1 <= i <= 3 ==> i in BasicWorld(h).heap && BasicWorld(h).heap[i] == Str
  {
    TableValid();
    var node := (i: ObjId) => if i == 0 then TestInstance else Str;
    forall i: ObjId | i < 4
      ensures Fits(Table, 4, node(i))
      ensures !node(i).shape.SetShape? && !node(i).shape.MapShape?
    {
    }
    HeapOfValid(4, node, BasicWorld(h));
  }

  /** `new String("One")` is deeply equal to another `new String("One")`
      and not to `new String("Two")`. */
  lemma BasicEquals(h: string -> Int32, fuel: nat)
    ensures ValidWorld(BasicWorld(h))
    ensures DeepEquals(BasicWorld(h), Obj(1), Obj(2), fuel).verdict == Unequal
    ensures DeepEquals(BasicWorld(h), Obj(1), Obj(3), fuel).verdict == Equal
  {
    BasicWorldValid(h);
    ClassCapabilities();
    var w := BasicWorld(h);
    TextEqualsIs(BasicText, 1, 2);
    TextEqualsIs(BasicText, 1, 3);
    assert "One"[0] != "Two"[0];
    CustomRoot(w, 1, 2, fuel);
    CustomRoot(w, 1, 3, fuel);
  }

  /** The deep hash of a string is its own `hashCode()`. */
  lemma BasicHashCode(h: string -> Int32)
    ensures ValidWorld(BasicWorld(h))
    ensures DeepHash(BasicWorld(h), Obj(1)) == h("One")
  {
    BasicWorldValid(h);
    ClassCapabilities();
    DeepHashCustomRoot(BasicWorld(h), 1);
    TextHashIs(BasicText, h, 1);
  }
}
