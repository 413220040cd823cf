/** The abstract JVM state the comparison engines read: a class table
    (what reflection reports about each class) and a finite heap of
    objects.  Nothing here changes; the engines only look. */
module ObjectGraph {

  datatype Option<+T> = None | Some(value: T)

  /** Java's 32-bit `int`, and its wrap-around addition. */
  type Int32 = x: int | -0x8000_0000 <= x < 0x8000_0000

  /** The Java int congruent to `x` modulo 2^32 (two's complement
      wrap-around).  `Wrap32Mod` and `Wrap32Unique` state that meaning. */
  function Wrap32(x: int): (r: Int32)
    ensures -0x8000_0000 <= x < 0x8000_0000 ==> r == x
    decreases if x < 0 then -x else x + 1
  {
    if x < -0x8000_0000 then Wrap32(x + 0x1_0000_0000)
    else if x >= 0x8000_0000 then Wrap32(x - 0x1_0000_0000)
    else x
  }

  /** `a + b` on Java ints. */
  function AddInt32(a: Int32, b: Int32): Int32 {
    Wrap32(a + b)
  }

  /** The wrapped value differs from `x` by a multiple of 2^32 ... */
  lemma {:induction false} Wrap32Mod(x: int)
    ensures (Wrap32(x) - x) % 0x1_0000_0000 == 0
    decreases if x < 0 then -x else x + 1
  {
    var m := 0x1_0000_0000;
    if x < -0x8000_0000 {
      Wrap32Mod(x + m);
      ModShift(Wrap32(x) - x, 1, m);
    } else if x >= 0x8000_0000 {
      Wrap32Mod(x - m);
      ModShift(Wrap32(x) - x, -1, m);
    }
  }

  /** ... and it is the only Java int that does. */
  lemma Wrap32Unique(x: int, r: Int32)
    requires (r - x) % 0x1_0000_0000 == 0
    ensures Wrap32(x) == r
  {
    var m := 0x1_0000_0000;
    var w := Wrap32(x);
    Wrap32Mod(x);
    var a := (w - x) / m;
    var b := (r - x) / m;
    assert w - x == m * a;
    assert r - x == m * b;
    assert w - r == m * (a - b);
  }

  /** Wrapping can be postponed: the running `hash +=` of the source
      equals the wrapped unbounded sum. */
  lemma Wrap32Absorb(x: int, y: int)
    ensures Wrap32(Wrap32(x) + y) == Wrap32(x + y)
  {
    var m := 0x1_0000_0000;
    var w := Wrap32(x);
    var r := Wrap32(w + y);
    Wrap32Mod(x);
    Wrap32Mod(w + y);
    var a := (w - x) / m;
    var b := (r - (w + y)) / m;
    assert w - x == m * a;
    assert r - (w + y) == m * b;
    assert r - (x + y) == m * (a + b);
    ModShift(0, -(a + b), m);
    Wrap32Unique(x + y, r);
  }

  lemma ModShift(a: int, q: int, m: int)
    requires m > 0
    ensures (a - q * m) % m == a % m
  {
    var b := a - q * m;
    var k := b / m - (a / m - q);
    assert m * k == a % m - b % m by {
      assert b == m * (b / m) + b % m;
      assert a == m * (a / m) + a % m;
      assert m * k == m * (b / m) - m * (a / m) + m * q;
    }
  }

  // ---------------------------------------------------------------- classes

  type ClassId = nat

  /** `java.lang.Object`, the root of every superclass chain. */
  const ObjectClass: ClassId := 0

  /** A declared field as `getDeclaredFields` reports it.  `accessible`
      records whether `setAccessible(true)` took effect: a field for which
      it failed is still listed, but reading it throws. */
  datatype Field = Field(owner: ClassId, name: string, isStatic: bool, isTransient: bool, accessible: bool)

  /** What reflection tells about one class: its superclass (none for
      Object), whether it declares `equals(Object)` or `hashCode()`
      itself, and its declared fields in declaration order. */
  datatype ClassInfo = ClassInfo(
    superclass: Option<ClassId>,
    declaresEquals: bool,
    declaresHashCode: bool,
    declaredFields: seq<Field>,
    kind: Kind)

  /** What a class's instances are: arrays, sets, other collections, maps
      or plain objects.  It is a property of the class, so two objects of
      one class always have shapes of the same kind. */
  datatype Kind = ArrayKind | SetKind | ListKind | MapKind | PlainKind

  /** Classes are numbered so that a superclass comes before each of its
      subclasses, and class 0 is Object. */
  type ClassTable = seq<ClassInfo>

  ghost predicate ValidTable(t: ClassTable) {
    && |t| > 0
    && t[ObjectClass].superclass == None
    && forall c :: 0 < c < |t| ==> t[c].superclass.Some? && t[c].superclass.value < c
  }

  // ---------------------------------------------------------------- objects

  type ObjId = nat

  /** A Java reference: null or an object of the heap, compared by identity. */
  datatype Ref = Null | Obj(id: ObjId)

  datatype Entry = Entry(key: Ref, value: Ref)

  /** The shape of an object as the engines dispatch on it.  Containers
      hold their contents in iteration order. */
  datatype Shape =
    | ArrayShape(elems: seq<Ref>)
    | SetShape(elems: seq<Ref>)             // a java.util.Set
    | ListShape(elems: seq<Ref>)            // any other java.util.Collection
    | MapShape(entries: seq<Entry>)         // a java.util.Map
    | Plain(slots: map<(ClassId, string), Ref>)  // field values by (declaring class, name)

  datatype Node = Node(cls: ClassId, shape: Shape)

  function KindOf(s: Shape): Kind {
    match s
    case ArrayShape(_) => ArrayKind
    case SetShape(_) => SetKind
    case ListShape(_) => ListKind
    case MapShape(_) => MapKind
    case Plain(_) => PlainKind
  }

  type Heap = map<ObjId, Node>

  /** The user-visible world: heap, class table, and the user classes'
      own `equals` and `hashCode`, which are foreign code and are not
      assumed to be lawful. */
  datatype World = World(
    heap: Heap,
    table: ClassTable,
    equals: (ObjId, ObjId) -> bool,
    hashCode: ObjId -> Int32)

  ghost predicate RefOk(h: Heap, r: Ref) {
    r.Null? || r.id in h
  }

  ghost predicate ShapeClosed(h: Heap, s: Shape) {
    match s
    case ArrayShape(e) => forall k :: 0 <= k < |e| ==> RefOk(h, e[k])
    case SetShape(e) => forall k :: 0 <= k < |e| ==> RefOk(h, e[k])
    case ListShape(e) => forall k :: 0 <= k < |e| ==> RefOk(h, e[k])
    case MapShape(es) => forall k :: 0 <= k < |es| ==> RefOk(h, es[k].key) && RefOk(h, es[k].value)
    case Plain(slots) => forall key :: key in slots ==> RefOk(h, slots[key])
  }

  /** Every object has a known class, a shape of its class's kind, and
      refers only to objects of the heap. */
  ghost predicate ValidWorld(w: World) {
    && ValidTable(w.table)
    && forall i :: i in w.heap ==>
         && w.heap[i].cls < |w.table|
         && KindOf(w.heap[i].shape) == w.table[w.heap[i].cls].kind
         && ShapeClosed(w.heap, w.heap[i].shape)
  }

  /** The elements of an array or collection (empty for anything else). */
  function Items(s: Shape): seq<Ref> {
    match s
    case ArrayShape(e) => e
    case SetShape(e) => e
    case ListShape(e) => e
    case _ => []
  }

  /** The entries of a map (empty for anything else). */
  function Entries(s: Shape): seq<Entry> {
    if s.MapShape? then s.entries else []
  }

  /** `field.get(obj)`: fails (None) when the field could not be made
      accessible or the object has no such slot. */
  function ReadField(f: Field, n: Node): (r: Option<Ref>)
    ensures r.Some? ==> f.accessible
  {
    if f.accessible && n.shape.Plain? && (f.owner, f.name) in n.shape.slots
    then Some(n.shape.slots[(f.owner, f.name)])
    else None
  }

  lemma ItemsClosed(h: Heap, s: Shape, k: int)
    requires ShapeClosed(h, s) && 0 <= k < |Items(s)|
    ensures RefOk(h, Items(s)[k])
  {
  }

  lemma EntriesClosed(h: Heap, s: Shape, k: int)
    requires ShapeClosed(h, s) && 0 <= k < |Entries(s)|
    ensures RefOk(h, Entries(s)[k].key) && RefOk(h, Entries(s)[k].value)
  {
  }

  lemma ReadClosed(h: Heap, f: Field, n: Node)
    requires ShapeClosed(h, n.shape) && ReadField(f, n).Some?
    ensures RefOk(h, ReadField(f, n).value)
  {
  }
}
