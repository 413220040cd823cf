/** Two `HashSet`s of pets that `deepEquals` tells apart in one order of
    its arguments only.  Set 1 holds two distinct pets named Fido of type
    Terrier; set 2 holds one such pet and a pet named Terrier of type Fido.
    Sizes and deep hashes agree, and `compareUnordered` asks of every left
    element only that some right element be deeply equal to it, so
    `deepEquals(set1, set2)` is `true` while `deepEquals(set2, set1)` is
    `false`.  The pets have no `equals` of their own, so a real `HashSet`
    holds both copies. */
module SetTests {
  import opened ObjectGraph
  import opened Capabilities
  import opened Pairs
  import opened DeepEq
  import opened WorkList
  import opened Hashing
  import opened Bisimulation
  import opened TestFixtures

  function SetNode(a: ObjId, b: ObjId): Node {
    Node(HashSetClass, SetShape([Obj(a), Obj(b)]))
  }

  /** set1 = 1 holds the pets 3 and 4, set2 = 2 holds 5 and 6; the names
      and types are the interned strings 7 and 8. */
  function SetObject(i: ObjId): Node {
    if i == 1 then SetNode(3, 4)
    else if i == 2 then SetNode(5, 6)
    else if 3 <= i <= 5 then PetNode(7, 8)
    else if i == 6 then PetNode(8, 7)
    else if i == 0 then TestInstance
    else Str
  }

  function SetText(i: ObjId): Option<string> {
    if i == 7 then Some("Fido") else if i == 8 then Some("Terrier") else None
  }

  function SetWorld(h: string -> Int32): World {
    World(HeapOf(9, (i: ObjId) => SetObject(i)), Table, TextEquals(SetText), TextHash(SetText, h))
  }

  lemma SetWorldValid(h: string -> Int32)
    ensures ValidWorld(SetWorld(h))
  {
    TableValid();
    forall i: ObjId | i < 9
      ensures Fits(Table, 9, SetObject(i))
    {
    }
    HeapOfClosed(9, (i: ObjId) => SetObject(i), SetWorld(h));
  }

  /** What the element probes use of the pets' heap. */
  ghost predicate PetsFacts(w: World) {
    && ValidWorld(w) && w.table == Table
    && 3 in w.heap && w.heap[3] == PetNode(7, 8)
    && 4 in w.heap && w.heap[4] == PetNode(7, 8)
    && 5 in w.heap && w.heap[5] == PetNode(7, 8)
    && 6 in w.heap && w.heap[6] == PetNode(8, 7)
    && 7 in w.heap && w.heap[7] == Str
    && 8 in w.heap && w.heap[8] == Str
    && w.equals(7, 7) && w.equals(8, 8) && !w.equals(7, 8) && !w.equals(8, 7)
  }

  /** Two pets Fido the Terrier, and the strings' equality. */
  ghost predicate TwinFacts(w: World, i: ObjId, j: ObjId) {
    && ValidWorld(w) && w.table == Table
    && i in w.heap && w.heap[i] == PetNode(7, 8) && j in w.heap && w.heap[j] == PetNode(7, 8)
    && 7 in w.heap && w.heap[7] == Str && 8 in w.heap && w.heap[8] == Str
    && w.equals(7, 7) && w.equals(8, 8)
  }

  /** What the proofs use of the sets' heap. */
  ghost predicate SetFacts(w: World) {
    && PetsFacts(w)
    && 1 in w.heap && w.heap[1] == SetNode(3, 4)
    && 2 in w.heap && w.heap[2] == SetNode(5, 6)
    && (forall i, j :: w.equals(i, j) ==> i == j)
  }

  lemma SetFactsHold(h: string -> Int32)
    ensures SetFacts(SetWorld(h))
  {
    SetWorldValid(h);
    var w := SetWorld(h);
    assert w.heap[1] == SetObject(1) && w.heap[2] == SetObject(2) && w.heap[3] == SetObject(3);
    assert w.heap[4] == SetObject(4) && w.heap[5] == SetObject(5) && w.heap[6] == SetObject(6);
    assert w.heap[7] == SetObject(7) && w.heap[8] == SetObject(8);
    TextEqualsIs(SetText, 7, 7);
    TextEqualsIs(SetText, 8, 8);
    forall i, j | w.equals(i, j)
      ensures i == j
    {
      TextEqualsIs(SetText, i, j);
      assert "Fido"[0] != "Terrier"[0];
    }
  }

  // ------------------------------------------------------------ the deep hashes

  /** `o` is a pet named and typed by the two strings, in either order. */
  ghost predicate PetOf(w: World, o: ObjId) {
    o in w.heap && (w.heap[o] == PetNode(7, 8) || w.heap[o] == PetNode(8, 7))
  }

  /** What the hash proofs use: a set `root` of the pets `a` and `b`. */
  ghost predicate SetOfPets(w: World, root: ObjId, a: ObjId, b: ObjId) {
    && ValidWorld(w) && w.table == Table
    && root in w.heap && w.heap[root] == SetNode(a, b) && PetOf(w, a) && PetOf(w, b)
    && 7 in w.heap && w.heap[7] == Str && 8 in w.heap && w.heap[8] == Str
  }

  /** A pet pushes its type on top, then its name, and adds nothing. */
  lemma PetHashKids(w: World, o: ObjId)
    requires ValidWorld(w) && w.table == Table && PetOf(w, o)
    ensures HashChildren(w, o) == [Obj(8), Obj(7)] || HashChildren(w, o) == [Obj(7), Obj(8)]
    ensures Contribution(w, o) == 0
  {
    PetFields();
    ClassCapabilities();
    PlainHashKids(w, o, DeepFields(Table, PetClass));
    if w.heap[o] == PetNode(7, 8) {
      PetValues(7, 8);
    } else {
      PetValues(8, 7);
    }
  }

  /** A string pushes nothing and adds its own hash code. */
  lemma StrHashKids(w: World, o: ObjId)
    requires ValidWorld(w) && w.table == Table && o in w.heap && w.heap[o] == Str
    ensures HashChildren(w, o) == [] && Contribution(w, o) == w.hashCode(o)
  {
    ClassCapabilities();
  }

  /** The set, its pets and the two strings hold all their children. */
  lemma SetClosed(w: World, root: ObjId, a: ObjId, b: ObjId)
    requires SetOfPets(w, root, a, b)
    ensures IdClosed(HashGraph(w), {root, a, b, 7, 8})
  {
    var g, s := HashGraph(w), {root, a, b, 7, 8};
    HashGraphIs(w);
    assert Children(g, root) == [Obj(a), Obj(b)];
    PairIn(s, a, b);
    PetKidsIn(w, g, s, a);
    PetKidsIn(w, g, s, b);
    StrHashKids(w, 7);
    StrHashKids(w, 8);
    assert Children(g, 7) == [] && Children(g, 8) == [];
    FiveClosed(g, s, root, a, b, 7, 8);
  }

  lemma PetKidsIn(w: World, g: Graph, s: set<ObjId>, o: ObjId)
    requires ValidWorld(w) && w.table == Table && PetOf(w, o) && IsHashGraph(w, g) && 7 in s && 8 in s
    ensures InSet(s, Children(g, o))
  {
    PetHashKids(w, o);
    PairIn(s, 7, 8);
    PairIn(s, 8, 7);
  }

  lemma PairIn(s: set<ObjId>, x: ObjId, y: ObjId)
    requires x in s && y in s
    ensures InSet(s, [Obj(x), Obj(y)])
  {
  }

  lemma FiveClosed(g: Graph, s: set<ObjId>, a: ObjId, b: ObjId, c: ObjId, d: ObjId, e: ObjId)
    requires s == {a, b, c, d, e}
    requires InSet(s, Children(g, a)) && InSet(s, Children(g, b)) && InSet(s, Children(g, c))
    requires InSet(s, Children(g, d)) && InSet(s, Children(g, e))
    ensures IdClosed(g, s)
  {
  }

  /** A set pushes its two pets. */
  lemma SetHashKids(w: World, root: ObjId, a: ObjId, b: ObjId)
    requires SetOfPets(w, root, a, b)
    ensures HashChildren(w, root) == [Obj(a), Obj(b)]
  {
  }

  /** The two children of a kept object are kept. */
  lemma PairKept(w: World, root: ObjId, o: ObjId, x: ObjId, y: ObjId)
    requires ValidWorld(w) && root in w.heap && IdentityDedup(w) && o in HashVisited(w, Obj(root))
    requires HashChildren(w, o) == [Obj(x), Obj(y)]
    ensures x in HashVisited(w, Obj(root)) && y in HashVisited(w, Obj(root))
  {
    DeepHashFollowsEdge(w, root, o, 0);
    DeepHashFollowsEdge(w, root, o, 1);
  }

  /** A root with two children, the first of which has the two
      children `x` and `y`, keeps all five objects. */
  lemma FiveKept(w: World, root: ObjId, a: ObjId, b: ObjId, x: ObjId, y: ObjId)
    requires ValidWorld(w) && root in w.heap && a in w.heap && IdentityDedup(w)
    requires HashChildren(w, root) == [Obj(a), Obj(b)]
    requires HashChildren(w, a) == [Obj(x), Obj(y)] || HashChildren(w, a) == [Obj(y), Obj(x)]
    ensures {root, a, b, x, y} <= HashVisited(w, Obj(root))
  {
    DeepHashReachable(w, root);
    PairKept(w, root, root, a, b);
    if HashChildren(w, a) == [Obj(x), Obj(y)] {
      PairKept(w, root, a, x, y);
    } else {
      PairKept(w, root, a, y, x);
    }
  }

  /** The traversal from the set reaches its pets and, through the first
      pet, both strings. */
  lemma SetVisitsAll(w: World, root: ObjId, a: ObjId, b: ObjId)
    requires SetOfPets(w, root, a, b) && IdentityDedup(w)
    ensures {root, a, b, 7, 8} <= HashVisited(w, Obj(root))
  {
    SetHashKids(w, root, a, b);
    PetHashKids(w, a);
    FiveKept(w, root, a, b, 7, 8);
  }

  /** The traversal from either set visits the set, its two pets and the
      two strings, and nothing else. */
  lemma SetReach(w: World, root: ObjId, a: ObjId, b: ObjId)
    requires SetOfPets(w, root, a, b) && IdentityDedup(w)
    ensures HashVisited(w, Obj(root)) == {root, a, b, 7, 8}
  {
    SetVisitsAll(w, root, a, b);
    SetClosed(w, root, a, b);
    DeepHashLeast(w, Obj(root), {root, a, b, 7, 8});
  }

  /** Each set hashes to the strings' two hash codes. */
  lemma SetHashIs(w: World, root: ObjId, a: ObjId, b: ObjId)
    requires SetOfPets(w, root, a, b) && IdentityDedup(w)
    ensures DeepHash(w, Obj(root)) == Wrap32(w.hashCode(7) + w.hashCode(8))
  {
    var g := HashGraph(w);
    SetReach(w, root, a, b);
    DeepHashIsSum(w, Obj(root));
    HashGraphIs(w);
    PetHashKids(w, a);
    PetHashKids(w, b);
    StrHashKids(w, 7);
    StrHashKids(w, 8);
    assert Weight(g, root) == 0 && Weight(g, a) == 0 && Weight(g, b) == 0;
    SumOfStrings(g, root, a, b);
  }

  /** Only the two strings weigh. */
  lemma SumOfStrings(g: Graph, root: ObjId, a: ObjId, b: ObjId)
    requires root !in {7, 8} && a !in {7, 8} && b !in {7, 8}
    requires Weight(g, root) == 0 && Weight(g, a) == 0 && Weight(g, b) == 0
    ensures Sum(g, {root, a, b, 7, 8}) == Weight(g, 7) + Weight(g, 8)
  {
    var s := {root, a, b, 7, 8};
    SumRemove(g, s, 7);
    assert s - {7} == {root, a, b, 8};
    SumRemove(g, {root, a, b, 8}, 8);
    assert {root, a, b, 8} - {8} == {root, a, b};
    SumOfZeros(g, {root, a, b});
  }

  lemma SetDedup(w: World)
    requires SetFacts(w)
    ensures IdentityDedup(w)
  {
  }

  lemma SetHashesAgreeIn(w: World)
    requires SetFacts(w)
    ensures DeepHash(w, Obj(1)) == DeepHash(w, Obj(2)) == Wrap32(w.hashCode(7) + w.hashCode(8))
  {
    SetDedup(w);
    assert SetOfPets(w, 1, 3, 4) && SetOfPets(w, 2, 5, 6);
    SetHashIs(w, 1, 3, 4);
    SetHashIs(w, 2, 5, 6);
  }

  /** `deepHashCode(set1) == deepHashCode(set2)`: both count "Fido" and
      "Terrier" once. */
  lemma SetHashesAgree(h: string -> Int32)
    ensures ValidWorld(SetWorld(h))
    ensures DeepHash(SetWorld(h), Obj(1)) == DeepHash(SetWorld(h), Obj(2)) == Wrap32(h("Fido") + h("Terrier"))
  {
    SetFactsHold(h);
    SetHashesAgreeIn(SetWorld(h));
    TextHashIs(SetText, h, 7);
    TextHashIs(SetText, h, 8);
  }

  // ------------------------------------------------------------ the element probes

  /** A probe of two pets Fido the Terrier accepts and marks at most the
      pair and the pairs of their strings. */
  lemma PetsMatch(w: World, i: ObjId, j: ObjId, v: set<DualKey>, fuel: nat)
    requires TwinFacts(w, i, j)
    ensures DeepEq.Run(w, [DualKey(Obj(i), Obj(j))], v, fuel).verdict == Equal
    ensures DeepEq.Run(w, [DualKey(Obj(i), Obj(j))], v, fuel).visited
         <= v + {DualKey(Obj(i), Obj(j)), DualKey(Obj(7), Obj(7)), DualKey(Obj(8), Obj(8))}
  {
    var r := {DualKey(Obj(i), Obj(j)), DualKey(Obj(7), Obj(7)), DualKey(Obj(8), Obj(8))};
    forall p | p in r
      ensures Consistent(w, r, p)
    {
      if p == DualKey(Obj(i), Obj(j)) {
        PetsKids(w, i, j, 7, 8, 7, 8);
      } else {
        StringConsistent(w, r, p.key1.id, p.key2.id);
      }
    }
    RunComplete(w, [DualKey(Obj(i), Obj(j))], v, fuel, r);
  }

  /** A probe of the pet Terrier the Fido against a pet Fido the Terrier
      fails on the first string pair it pops that is not yet marked; with
      ("Fido", "Terrier") unmarked that is this pair, which it marks. */
  lemma PetsClash(w: World, i: ObjId, j: ObjId, v: set<DualKey>, fuel: nat)
    requires ValidWorld(w) && w.table == Table && i in w.heap && j in w.heap && 7 in w.heap && 8 in w.heap
    requires w.heap[i] == PetNode(8, 7) && w.heap[j] == PetNode(7, 8) && w.heap[7] == Str && w.heap[8] == Str
    requires !w.equals(7, 8) && !w.equals(8, 7)
    requires DualKey(Obj(7), Obj(8)) !in v || DualKey(Obj(8), Obj(7)) !in v
    ensures DeepEq.Run(w, [DualKey(Obj(i), Obj(j))], v, fuel).verdict == Unequal
    ensures DualKey(Obj(7), Obj(8)) !in v ==>
      DeepEq.Run(w, [DualKey(Obj(i), Obj(j))], v, fuel).visited == v + {DualKey(Obj(i), Obj(j)), DualKey(Obj(7), Obj(8))}
  {
    var p, x, y := DualKey(Obj(i), Obj(j)), DualKey(Obj(8), Obj(7)), DualKey(Obj(7), Obj(8));
    var v' := v + {p};
    PetsStart(w, i, j, v, fuel);
    assert i != 7 && i != 8;
    assert x != p && y != p;
    ClassCapabilities();
    if y !in v && x !in v {
      CustomEqualsDecides(w, y, [x], v', fuel);
    } else if y !in v {
      CustomEqualsDecides(w, y, [], v', fuel);
    } else {
      CustomEqualsDecides(w, x, [], v', fuel);
    }
  }

  /** The pet pair pushes the unmarked ones of its type pair and its name
      pair, the name pair on top. */
  lemma PetsStart(w: World, i: ObjId, j: ObjId, v: set<DualKey>, fuel: nat)
    requires ValidWorld(w) && w.table == Table && i in w.heap && j in w.heap && 7 in w.heap && 8 in w.heap
    requires w.heap[i] == PetNode(8, 7) && w.heap[j] == PetNode(7, 8) && w.heap[7] == Str && w.heap[8] == Str
    ensures var p, x, y := DualKey(Obj(i), Obj(j)), DualKey(Obj(8), Obj(7)), DualKey(Obj(7), Obj(8));
      DeepEq.Run(w, [p], v, fuel) ==
      DeepEq.Run(w, (if y in v + {p} then [] else [y]) + (if x in v + {p} then [] else [x]), v + {p}, fuel)
  {
    var p, x, y := DualKey(Obj(i), Obj(j)), DualKey(Obj(8), Obj(7)), DualKey(Obj(7), Obj(8));
    var v' := v + {p};
    assert [p] + [] == [p];
    PetFields();
    ClassCapabilities();
    PetPairs(8, 7, 7, 8);
    FieldsCompared(w, p, [], v, fuel);
    PushedPair(x, y, v');
  }

  // ------------------------------------------------------------ the two orders

  /** Both of set1's pets find set2's first pet: the outer loop accepts. */
  lemma ForwardContained(w: World, v: set<DualKey>, fuel: nat)
    requires ValidWorld(w) && fuel >= 1
    requires DeepEq.Run(w, [DualKey(Obj(3), Obj(5))], v, fuel - 1).verdict == Equal
    requires DeepEq.Run(w, [DualKey(Obj(4), Obj(5))], DeepEq.Run(w, [DualKey(Obj(3), Obj(5))], v, fuel - 1).visited, fuel - 1).verdict == Equal
    ensures ContainsAll(w, [Obj(3), Obj(4)], 0, [Obj(5), Obj(6)], v, fuel).verdict == Equal
  {
    var e1, e2: seq<Ref> := [Obj(3), Obj(4)], [Obj(5), Obj(6)];
    assert e1[0] == Obj(3) && e1[1] == Obj(4) && e2[0] == Obj(5);
    ProbeAccepted(w, Obj(3), e2, 0, v, fuel);
    var v1 := DeepEq.Run(w, [DualKey(Obj(3), Obj(5))], v, fuel - 1).visited;
    ProbeAccepted(w, Obj(4), e2, 0, v1, fuel);
    ElementMatched(w, e1, 0, e2, v, fuel);
    ElementMatched(w, e1, 1, e2, v1, fuel);
  }

  /** The two sets, compared in the order (set1, set2): of equal size and
      deep hash, and with the probes' outcomes given, `deepEquals` holds. */
  lemma SetsForwardFrom(w: World, fuel: nat)
    requires ValidWorld(w) && fuel >= 1
    requires 1 in w.heap && w.heap[1] == SetNode(3, 4) && 2 in w.heap && w.heap[2] == SetNode(5, 6)
    requires DeepHash(w, Obj(1)) == DeepHash(w, Obj(2))
    requires var v := {DualKey(Obj(1), Obj(2))};
      && DeepEq.Run(w, [DualKey(Obj(3), Obj(5))], v, fuel - 1).verdict == Equal
      && DeepEq.Run(w, [DualKey(Obj(4), Obj(5))], DeepEq.Run(w, [DualKey(Obj(3), Obj(5))], v, fuel - 1).visited, fuel - 1).verdict == Equal
    ensures DeepEquals(w, Obj(1), Obj(2), fuel).verdict == Equal
  {
    var p := DualKey(Obj(1), Obj(2));
    SetsCompared(w, p, [], {}, fuel);
    assert [p] + [] == [p] && {} + {p} == {p};
    ForwardContained(w, {p}, fuel);
  }

  /** The two probes of the forward comparison, from the mark of the two
      sets' pair on. */
  lemma ForwardProbes(w: World, v: set<DualKey>, fuel: nat)
    requires PetsFacts(w)
    ensures DeepEq.Run(w, [DualKey(Obj(3), Obj(5))], v, fuel).verdict == Equal
    ensures DeepEq.Run(w, [DualKey(Obj(4), Obj(5))], DeepEq.Run(w, [DualKey(Obj(3), Obj(5))], v, fuel).visited, fuel).verdict == Equal
  {
    PetsMatch(w, 3, 5, v, fuel);
    PetsMatch(w, 4, 5, DeepEq.Run(w, [DualKey(Obj(3), Obj(5))], v, fuel).visited, fuel);
  }

  /** set2's first pet finds set1's first; its second pet is rejected by
      both of set1's pets, the first rejection marking ("Fido", "Terrier"). */
  lemma BackwardRejected(w: World, v: set<DualKey>, fuel: nat)
    requires ValidWorld(w) && fuel >= 1
    requires DeepEq.Run(w, [DualKey(Obj(5), Obj(3))], v, fuel - 1).verdict == Equal
    requires var v1 := DeepEq.Run(w, [DualKey(Obj(5), Obj(3))], v, fuel - 1).visited;
      var v2 := DeepEq.Run(w, [DualKey(Obj(6), Obj(3))], v1, fuel - 1).visited;
      && DeepEq.Run(w, [DualKey(Obj(6), Obj(3))], v1, fuel - 1).verdict == Unequal
      && DualKey(Obj(6), Obj(3)) in v2 && DualKey(Obj(7), Obj(8)) in v2
      && DeepEq.Run(w, [DualKey(Obj(6), Obj(4))], v2, fuel - 1).verdict == Unequal
    ensures var c := ContainsAll(w, [Obj(5), Obj(6)], 0, [Obj(3), Obj(4)], v, fuel);
      c.verdict == Unequal && DualKey(Obj(6), Obj(3)) in c.visited && DualKey(Obj(7), Obj(8)) in c.visited
  {
    var e1, e2: seq<Ref> := [Obj(5), Obj(6)], [Obj(3), Obj(4)];
    assert e1[0] == Obj(5) && e1[1] == Obj(6) && e2[0] == Obj(3) && e2[1] == Obj(4);
    ProbeAccepted(w, Obj(5), e2, 0, v, fuel);
    ElementMatched(w, e1, 0, e2, v, fuel);
    var v1 := DeepEq.Run(w, [DualKey(Obj(5), Obj(3))], v, fuel - 1).visited;
    ProbeRejected(w, Obj(6), e2, 0, v1, fuel);
    var v2 := DeepEq.Run(w, [DualKey(Obj(6), Obj(3))], v1, fuel - 1).visited;
    ProbeRejected(w, Obj(6), e2, 1, v2, fuel);
    var v3 := DeepEq.Run(w, [DualKey(Obj(6), Obj(4))], v2, fuel - 1).visited;
    CandidatesExhausted(w, Obj(6), e2, 2, v3, fuel);
    ElementUnmatched(w, e1, 1, e2, v1, fuel);
  }

  /** The three probes of the backward comparison, from the mark of the
      two sets' pair on. */
  lemma BackwardProbes(w: World, v: set<DualKey>, fuel: nat)
    requires PetsFacts(w) && v == {DualKey(Obj(2), Obj(1))}
    ensures DeepEq.Run(w, [DualKey(Obj(5), Obj(3))], v, fuel).verdict == Equal
    ensures var v1 := DeepEq.Run(w, [DualKey(Obj(5), Obj(3))], v, fuel).visited;
      var v2 := DeepEq.Run(w, [DualKey(Obj(6), Obj(3))], v1, fuel).visited;
      && DeepEq.Run(w, [DualKey(Obj(6), Obj(3))], v1, fuel).verdict == Unequal
      && DualKey(Obj(6), Obj(3)) in v2 && DualKey(Obj(7), Obj(8)) in v2
      && DeepEq.Run(w, [DualKey(Obj(6), Obj(4))], v2, fuel).verdict == Unequal
  {
    PetsMatch(w, 5, 3, v, fuel);
    var v1 := DeepEq.Run(w, [DualKey(Obj(5), Obj(3))], v, fuel).visited;
    StringPairsApart(v1);
    PetsClash(w, 6, 3, v1, fuel);
    var v2 := DeepEq.Run(w, [DualKey(Obj(6), Obj(3))], v1, fuel).visited;
    ClashMarks(v1, v2);
    PetsClash(w, 6, 4, v2, fuel);
  }

  /** The first clash marks the pet pair and ("Fido", "Terrier") only. */
  lemma ClashMarks(v: set<DualKey>, v2: set<DualKey>)
    requires DualKey(Obj(8), Obj(7)) !in v && v2 == v + {DualKey(Obj(6), Obj(3)), DualKey(Obj(7), Obj(8))}
    ensures DualKey(Obj(8), Obj(7)) !in v2 && DualKey(Obj(6), Obj(3)) in v2 && DualKey(Obj(7), Obj(8)) in v2
  {
  }

  lemma StringPairsApart(v: set<DualKey>)
    requires v <= {DualKey(Obj(2), Obj(1)), DualKey(Obj(5), Obj(3)), DualKey(Obj(7), Obj(7)), DualKey(Obj(8), Obj(8))}
    ensures DualKey(Obj(7), Obj(8)) !in v && DualKey(Obj(8), Obj(7)) !in v
  {
  }

  /** The two sets, compared in the order (set2, set1): of equal size and
      deep hash, and with the probes' outcomes given, `deepEquals` fails
      with the marks of the failed probes kept. */
  lemma SetsBackwardFrom(w: World, fuel: nat)
    requires ValidWorld(w) && fuel >= 1
    requires 1 in w.heap && w.heap[1] == SetNode(3, 4) && 2 in w.heap && w.heap[2] == SetNode(5, 6)
    requires DeepHash(w, Obj(1)) == DeepHash(w, Obj(2))
    requires var v := {DualKey(Obj(2), Obj(1))};
      var v1 := DeepEq.Run(w, [DualKey(Obj(5), Obj(3))], v, fuel - 1).visited;
      var v2 := DeepEq.Run(w, [DualKey(Obj(6), Obj(3))], v1, fuel - 1).visited;
      && DeepEq.Run(w, [DualKey(Obj(5), Obj(3))], v, fuel - 1).verdict == Equal
      && DeepEq.Run(w, [DualKey(Obj(6), Obj(3))], v1, fuel - 1).verdict == Unequal
      && DualKey(Obj(6), Obj(3)) in v2 && DualKey(Obj(7), Obj(8)) in v2
      && DeepEq.Run(w, [DualKey(Obj(6), Obj(4))], v2, fuel - 1).verdict == Unequal
    ensures DeepEquals(w, Obj(2), Obj(1), fuel).verdict == Unequal
    ensures DualKey(Obj(6), Obj(3)) in DeepEquals(w, Obj(2), Obj(1), fuel).visited
    ensures DualKey(Obj(7), Obj(8)) in DeepEquals(w, Obj(2), Obj(1), fuel).visited
  {
    var p := DualKey(Obj(2), Obj(1));
    SetsCompared(w, p, [], {}, fuel);
    assert [p] + [] == [p] && {} + {p} == {p};
    BackwardRejected(w, {p}, fuel);
  }

  /** The sets' own nodes in the test world. */
  lemma SetNodes(h: string -> Int32)
    ensures ValidWorld(SetWorld(h))
    ensures 1 in SetWorld(h).heap && SetWorld(h).heap[1] == SetNode(3, 4)
    ensures 2 in SetWorld(h).heap && SetWorld(h).heap[2] == SetNode(5, 6)
  {
    SetFactsHold(h);
  }

  lemma ForwardProbesIn(h: string -> Int32, fuel: nat)
    ensures ValidWorld(SetWorld(h))
    ensures var w := SetWorld(h);
      && DeepEq.Run(w, [DualKey(Obj(3), Obj(5))], {DualKey(Obj(1), Obj(2))}, fuel).verdict == Equal
      && DeepEq.Run(w, [DualKey(Obj(4), Obj(5))], DeepEq.Run(w, [DualKey(Obj(3), Obj(5))], {DualKey(Obj(1), Obj(2))}, fuel).visited, fuel).verdict == Equal
  {
    SetFactsHold(h);
    ForwardProbes(SetWorld(h), {DualKey(Obj(1), Obj(2))}, fuel);
  }

  lemma BackwardProbesIn(h: string -> Int32, fuel: nat)
    ensures ValidWorld(SetWorld(h))
    ensures var w := SetWorld(h);
      var v := {DualKey(Obj(2), Obj(1))};
      var v1 := DeepEq.Run(w, [DualKey(Obj(5), Obj(3))], v, fuel).visited;
      var v2 := DeepEq.Run(w, [DualKey(Obj(6), Obj(3))], v1, fuel).visited;
      && DeepEq.Run(w, [DualKey(Obj(5), Obj(3))], v, fuel).verdict == Equal
      && DeepEq.Run(w, [DualKey(Obj(6), Obj(3))], v1, fuel).verdict == Unequal
      && DualKey(Obj(6), Obj(3)) in v2 && DualKey(Obj(7), Obj(8)) in v2
      && DeepEq.Run(w, [DualKey(Obj(6), Obj(4))], v2, fuel).verdict == Unequal
  {
    SetFactsHold(h);
    BackwardProbes(SetWorld(h), {DualKey(Obj(2), Obj(1))}, fuel);
  }

  /** set1 is deeply equal to set2: each pet of set1 finds set2's first. */
  lemma SetsForward(h: string -> Int32, fuel: nat)
    ensures ValidWorld(SetWorld(h))
    ensures DeepEquals(SetWorld(h), Obj(1), Obj(2), fuel + 1).verdict == Equal
  {
    SetNodes(h);
    SetHashesAgree(h);
    ForwardProbesIn(h, fuel);
    SetsForwardFrom(SetWorld(h), fuel + 1);
  }

  /** set2 is not deeply equal to set1, and the failed probes of set2's
      second pet stay marked. */
  lemma SetsBackward(h: string -> Int32, fuel: nat)
    ensures ValidWorld(SetWorld(h))
    ensures DeepEquals(SetWorld(h), Obj(2), Obj(1), fuel + 1).verdict == Unequal
    ensures DualKey(Obj(6), Obj(3)) in DeepEquals(SetWorld(h), Obj(2), Obj(1), fuel + 1).visited
  {
    SetNodes(h);
    SetHashesAgree(h);
    BackwardProbesIn(h, fuel);
    SetsBackwardFrom(SetWorld(h), fuel + 1);
  }
}
