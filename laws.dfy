/** Laws of `deepEquals` over whole families of heaps: two sets that
    hold the same elements in another iteration order are deeply equal
    and hash alike, the comparison of an object with itself succeeds
    when sets are not nested in sets and there are no maps, it is
    symmetric when there are neither sets nor maps, and deeply equal
    objects hash alike under the hypotheses `DeepEqualsHashConsistent`
    names. */
module Laws {
  import opened ObjectGraph
  import opened Capabilities
  import opened Pairs
  import opened WorkList
  import opened Hashing
  import opened DeepEq
  import opened Bisimulation

  // ------------------------------------------------------------ regions of the heap

  /** Object `o`'s custom `equals`, if it has one, holds of `o` and
      itself, and everything `o` hands on for comparison (its elements,
      or the values of its readable fields when it is compared field by
      field) lies in `r`. */
  ghost predicate HandsOnWithin(w: World, o: ObjId, r: set<Ref>)
    requires ValidWorld(w) && o in w.heap
  {
    var n := w.heap[o];
    && (n.shape.Plain? && CustomEquals(w.table, n.cls) ==> w.equals(o, o))
    && (forall k :: 0 <= k < |Items(n.shape)| ==> Items(n.shape)[k] in r)
    && (n.shape.Plain? && !CustomEquals(w.table, n.cls) ==>
          forall f :: f in DeepFields(w.table, n.cls) && ReadField(f, n).Some? ==> ReadField(f, n).value in r)
  }

  /** A region of the heap without sets and maps that holds everything
      its objects hand on: the element probes of a set comparison stay
      inside it and never need fuel. */
  ghost predicate Flat(w: World, d: set<Ref>)
    requires ValidWorld(w)
  {
    forall x :: x in d ==>
      && RefOk(w.heap, x)
      && (x.Obj? ==> !w.heap[x.id].shape.SetShape? && !w.heap[x.id].shape.MapShape? && HandsOnWithin(w, x.id, d))
  }

  /** A region `e` without maps in which every set holds elements of the
      flat region `d` only, and every other object hands on references
      of `e`: sets occur, but no set is nested in a set. */
  ghost predicate Shallow(w: World, d: set<Ref>, e: set<Ref>)
    requires ValidWorld(w)
  {
    && Flat(w, d)
    && forall x :: x in e ==>
         && RefOk(w.heap, x)
         && (x.Obj? ==> !w.heap[x.id].shape.MapShape?
                        && HandsOnWithin(w, x.id, if w.heap[x.id].shape.SetShape? then d else e))
  }

  /** Both references of the pair lie in `r`. */
  ghost predicate Within(p: DualKey, r: set<Ref>) {
    p.key1 in r && p.key2 in r
  }

  /** Every reference of `r` paired with itself. */
  ghost function Diagonal(r: set<Ref>): set<DualKey> {
    set x | x in r :: DualKey(x, x)
  }

  /** The child pairs of a pair that passes its own checks stay inside a
      region that holds what both of its objects hand on. */
  lemma KidsWithin(w: World, r: set<Ref>, p: DualKey, q: DualKey)
    requires ValidWorld(w) && PairOk(w, p) && Local(w, p) && q in Kids(w, p)
    requires p.key1.Obj? ==> HandsOnWithin(w, p.key1.id, r)
    requires p.key2.Obj? ==> HandsOnWithin(w, p.key2.id, r)
    ensures Within(q, r)
  {
    var n1, n2 := w.heap[p.key1.id], w.heap[p.key2.id];
    if n1.shape.Plain? {
      var fs := DeepFields(w.table, n1.cls);
      FieldPairsIn(fs, n1, n2, q);
      var k :| 0 <= k < |fs| && ReadField(fs[k], n1).Some? && ReadField(fs[k], n2).Some?
        && q == DualKey(ReadField(fs[k], n1).value, ReadField(fs[k], n2).value);
      assert KindOf(n2.shape) == KindOf(n1.shape);
      assert fs[k] in DeepFields(w.table, n2.cls);
    } else {
      var e1, e2 := Items(n1.shape), Items(n2.shape);
      var k :| 0 <= k < |Zip(e1, e2)| && Zip(e1, e2)[k] == q;
      ZipIndex(e1, e2, k);
    }
  }

  /** Pairs of a flat region: the loop never runs out of fuel on them,
      whichever the two objects are. */
  lemma {:induction false} FlatRun(w: World, d: set<Ref>, stack: seq<DualKey>, visited: set<DualKey>, fuel: nat)
    requires ValidWorld(w) && Flat(w, d)
    requires forall k :: 0 <= k < |stack| ==> Within(stack[k], d)
    ensures DeepEq.Run(w, stack, visited, fuel).verdict != OutOfFuel
    decreases Universe(w) - visited, Count(stack, visited)
  {
    if stack == [] {
      return;
    }
    var p, rest := stack[0], stack[1..];
    assert Within(p, d) && PairOk(w, p);
    assert Sequential(w, {p});
    StepOrdered(w, p, rest, visited, fuel);
    if !Local(w, p) {
      return;
    }
    var t := Step(w, p, rest, visited, fuel);
    var v', s' := visited + {p}, PushFresh(Kids(w, p), visited + {p}, rest);
    forall k | 0 <= k < |s'|
      ensures Within(s'[k], d)
    {
      PushFreshIn(Kids(w, p), v', rest, s'[k]);
      if s'[k] in rest {
        var j :| 0 <= j < |rest| && rest[j] == s'[k];
        assert stack[j + 1] == rest[j];
      } else {
        KidsWithin(w, d, p, s'[k]);
      }
    }
    TurnMeasure(w, stack, visited, t);
    FlatRun(w, d, s', v', fuel);
  }

  /** Pairing every reference of a flat region with itself gives a
      consistent relation in which no pair starts with a set or map. */
  lemma FlatDiagonal(w: World, d: set<Ref>)
    requires ValidWorld(w) && Flat(w, d)
    ensures Bisim(w, Diagonal(d)) && Sequential(w, Diagonal(d))
  {
    var r := Diagonal(d);
    forall p | p in r
      ensures Consistent(w, r, p)
    {
      var x :| x in d && p == DualKey(x, x);
      assert PairOk(w, p) && Local(w, p);
      forall q | q in Kids(w, p)
        ensures q in r
      {
        KidsWithin(w, d, p, q);
        KidsDiagonal(w, p, q);
        assert q == DualKey(q.key1, q.key1);
      }
    }
  }

  // ------------------------------------------------------------ sets in another order

  /** A left element that occurs among the right candidates from `j` on
      is matched: the probes before it answer without running out of
      fuel, and the probe of the element against itself accepts. */
  lemma {:induction false} FirstMatchFound(w: World, d: set<Ref>, x: Ref, e2: seq<Ref>, j: nat,
                                           visited: set<DualKey>, fuel: nat)
    requires ValidWorld(w) && Flat(w, d) && x in d && fuel >= 1
    requires forall k :: 0 <= k < |e2| ==> e2[k] in d
    requires exists k :: j <= k < |e2| && e2[k] == x
    ensures FindMatch(w, x, e2, j, visited, fuel).verdict == Equal
    decreases |e2| - j
  {
    var p, f := DualKey(x, e2[j]), fuel - 1;
    if e2[j] == x {
      SelfProbe(w, d, x, visited, f);
      ProbeAccepted(w, x, e2, j, visited, fuel);
    } else {
      FlatRun(w, d, [p], visited, f);
      var r := DeepEq.Run(w, [p], visited, f);
      if r.verdict == Equal {
        ProbeAccepted(w, x, e2, j, visited, fuel);
      } else {
        ProbeRejected(w, x, e2, j, visited, fuel);
        FirstMatchFound(w, d, x, e2, j + 1, r.visited, fuel);
      }
    }
  }

  /** A reference of a flat region compared with itself is accepted. */
  lemma SelfProbe(w: World, d: set<Ref>, x: Ref, visited: set<DualKey>, fuel: nat)
    requires ValidWorld(w) && Flat(w, d) && x in d
    ensures DeepEq.Run(w, [DualKey(x, x)], visited, fuel).verdict == Equal
  {
    FlatDiagonal(w, d);
    assert DualKey(x, x) in Diagonal(d);
    RunComplete(w, [DualKey(x, x)], visited, fuel, Diagonal(d));
  }

  /** Every left element that occurs on the right finds a match, so the
      outer loop of `compareUnordered` accepts. */
  lemma {:induction false} AllContained(w: World, d: set<Ref>, e1: seq<Ref>, i: nat, e2: seq<Ref>,
                                        visited: set<DualKey>, fuel: nat)
    requires ValidWorld(w) && Flat(w, d) && fuel >= 1
    requires forall k :: 0 <= k < |e1| ==> e1[k] in d && e1[k] in e2
    requires forall k :: 0 <= k < |e2| ==> e2[k] in d
    ensures ContainsAll(w, e1, i, e2, visited, fuel).verdict == Equal
    decreases |e1| - i
  {
    if i < |e1| {
      var m :| 0 <= m < |e2| && e2[m] == e1[i];
      FirstMatchFound(w, d, e1[i], e2, 0, visited, fuel);
      ElementMatched(w, e1, i, e2, visited, fuel);
      AllContained(w, d, e1, i + 1, e2, FindMatch(w, e1[i], e2, 0, visited, fuel).visited, fuel);
    }
  }

  /** A node of weight 0 adds nothing to a sum. */
  lemma SumDrop(g: Graph, s: set<ObjId>, y: ObjId)
    requires Weight(g, y) == 0
    ensures Sum(g, s) == Sum(g, s - {y})
  {
    if y in s {
      SumRemove(g, s, y);
    } else {
      assert s - {y} == s;
    }
  }

  /** Adding to a children-closed set a node whose children are all
      children of one of its members keeps it closed. */
  lemma ClosedWithRoot(g: Graph, v: set<ObjId>, s1: ObjId, s2: ObjId)
    requires IdClosed(g, v) && s2 in v
    requires forall x :: x in Children(g, s1) ==> x in Children(g, s2)
    ensures IdClosed(g, v + {s1})
  {
    var s := v + {s1};
    forall p | p in s
      ensures InSet(s, Children(g, p))
    {
      var ch := Children(g, p);
      forall k | 0 <= k < |ch| && ch[k].Obj?
        ensures ch[k].id in s
      {
        if p == s1 {
          var e2 := Children(g, s2);
          assert ch[k] in Children(g, s1);
          var m :| 0 <= m < |e2| && e2[m] == ch[k];
          assert InSet(v, e2);
        } else {
          assert InSet(v, ch);
        }
      }
    }
  }

  /** What the hash traversal from a set visits, besides the set itself,
      is visited from another set holding all its elements. */
  lemma SetVisitsWithin(w: World, s1: ObjId, s2: ObjId)
    requires ValidWorld(w) && s1 in w.heap && s2 in w.heap && IdentityDedup(w)
    requires w.heap[s1].shape.SetShape? && w.heap[s2].shape.SetShape?
    requires forall x :: x in Items(w.heap[s1].shape) ==> x in Items(w.heap[s2].shape)
    ensures HashVisited(w, Obj(s1)) <= HashVisited(w, Obj(s2)) + {s1}
  {
    var g := HashGraph(w);
    DeepHashReachable(w, s2);
    assert Children(g, s1) == Items(w.heap[s1].shape) && Children(g, s2) == Items(w.heap[s2].shape) by {
      HashGraphIs(w);
    }
    ClosedWithRoot(g, HashVisited(w, Obj(s2)), s1, s2);
    DeepHashLeast(w, Obj(s1), HashVisited(w, Obj(s2)) + {s1});
  }

  /** Two sets holding the same elements, in whatever order, have the
      same deep hash (when `HashSet` de-duplication is identity). */
  lemma SetHashesEqual(w: World, s1: ObjId, s2: ObjId)
    requires ValidWorld(w) && s1 in w.heap && s2 in w.heap && IdentityDedup(w)
    requires w.heap[s1].shape.SetShape? && w.heap[s2].shape.SetShape?
    requires forall x :: x in Items(w.heap[s1].shape) <==> x in Items(w.heap[s2].shape)
    ensures DeepHash(w, Obj(s1)) == DeepHash(w, Obj(s2))
  {
    var g := HashGraph(w);
    var v1, v2 := HashVisited(w, Obj(s1)), HashVisited(w, Obj(s2));
    SetVisitsWithin(w, s1, s2);
    SetVisitsWithin(w, s2, s1);
    HashGraphIs(w);
    assert Weight(g, s1) == 0 && Weight(g, s2) == 0;
    SumDrop(g, v1, s1);
    SumDrop(g, v1 - {s1}, s2);
    SumDrop(g, v2, s1);
    SumDrop(g, v2 - {s1}, s2);
    assert v1 - {s1} - {s2} == v2 - {s1} - {s2};
    DeepHashIsSum(w, Obj(s1));
    DeepHashIsSum(w, Obj(s2));
  }

  /** `compareUnordered` accepts two sets whose elements are the same
      multiset in any order, drawn from a flat region, with one unit of
      fuel for the element probes, whatever `visited` holds already. */
  lemma UnorderedAccepts(w: World, d: set<Ref>, s1: ObjId, s2: ObjId, visited: set<DualKey>, fuel: nat)
    requires ValidWorld(w) && Flat(w, d) && IdentityDedup(w) && fuel >= 1
    requires s1 in w.heap && s2 in w.heap && w.heap[s1].shape.SetShape? && w.heap[s2].shape.SetShape?
    requires multiset(Items(w.heap[s1].shape)) == multiset(Items(w.heap[s2].shape))
    requires forall k :: 0 <= k < |Items(w.heap[s1].shape)| ==> Items(w.heap[s1].shape)[k] in d
    ensures Unordered(w, s1, s2, Items(w.heap[s1].shape), Items(w.heap[s2].shape), visited, fuel).verdict == Equal
  {
    var e1, e2 := Items(w.heap[s1].shape), Items(w.heap[s2].shape);
    assert |e1| == |multiset(e1)| == |multiset(e2)| == |e2|;
    forall x
      ensures x in e1 <==> x in e2
    {
      assert x in e1 <==> x in multiset(e1);
      assert x in e2 <==> x in multiset(e2);
    }
    forall k | 0 <= k < |e2|
      ensures e2[k] in d
    {
      assert e2[k] in e1;
      var m :| 0 <= m < |e1| && e1[m] == e2[k];
    }
    SetHashesEqual(w, s1, s2);
    AllContained(w, d, e1, 0, e2, visited, fuel);
  }

  /** Two sets of one class holding the same elements in another order
      are deeply equal, and their deep hashes agree. */
  lemma ReorderedSetsAreEqual(w: World, d: set<Ref>, s1: ObjId, s2: ObjId, fuel: nat)
    requires ValidWorld(w) && Flat(w, d) && IdentityDedup(w) && fuel >= 1
    requires s1 in w.heap && s2 in w.heap && w.heap[s1].cls == w.heap[s2].cls
    requires w.heap[s1].shape.SetShape? && w.heap[s2].shape.SetShape?
    requires multiset(Items(w.heap[s1].shape)) == multiset(Items(w.heap[s2].shape))
    requires forall k :: 0 <= k < |Items(w.heap[s1].shape)| ==> Items(w.heap[s1].shape)[k] in d
    ensures DeepEquals(w, Obj(s1), Obj(s2), fuel).verdict == Equal
    ensures DeepHash(w, Obj(s1)) == DeepHash(w, Obj(s2))
  {
    var p := DualKey(Obj(s1), Obj(s2));
    UnorderedAccepts(w, d, s1, s2, {} + {p}, fuel);
    SetsCompared(w, p, [], {}, fuel);
    assert [p] + [] == [p];
  }

  // ------------------------------------------------------------ reflexivity

  /** A set compared with itself: its elements find themselves, and the
      loop goes on with the rest. */
  lemma SetAgainstItself(w: World, d: set<Ref>, s: ObjId, rest: seq<DualKey>, visited: set<DualKey>, fuel: nat)
    requires ValidWorld(w) && Flat(w, d) && fuel >= 1 && s in w.heap && w.heap[s].shape.SetShape?
    requires forall k :: 0 <= k < |Items(w.heap[s].shape)| ==> Items(w.heap[s].shape)[k] in d
    ensures Step(w, DualKey(Obj(s), Obj(s)), rest, visited, fuel).Go?
    ensures Step(w, DualKey(Obj(s), Obj(s)), rest, visited, fuel).stack == rest
  {
    var e := Items(w.heap[s].shape);
    AllContained(w, d, e, 0, e, visited + {DualKey(Obj(s), Obj(s))}, fuel);
  }

  /** Every pair on the stack pairs a reference of a shallow region with
      itself: the loop accepts. */
  lemma {:induction false} ShallowRun(w: World, d: set<Ref>, e: set<Ref>, stack: seq<DualKey>,
                                      visited: set<DualKey>, fuel: nat)
    requires ValidWorld(w) && Shallow(w, d, e) && fuel >= 1
    requires forall k :: 0 <= k < |stack| ==> stack[k] in Diagonal(e)
    ensures DeepEq.Run(w, stack, visited, fuel).verdict == Equal
    decreases Universe(w) - visited, Count(stack, visited)
  {
    if stack == [] {
      return;
    }
    var p, rest := stack[0], stack[1..];
    assert p in Diagonal(e);
    var x :| x in e && p == DualKey(x, x);
    var t := Step(w, p, rest, visited, fuel);
    forall k | 0 <= k < |rest|
      ensures rest[k] in Diagonal(e)
    {
      assert stack[k + 1] == rest[k];
    }
    if x.Obj? && w.heap[x.id].shape.SetShape? {
      SetAgainstItself(w, d, x.id, rest, visited, fuel);
      TurnMeasure(w, stack, visited, t);
      ShallowRun(w, d, e, rest, t.visited, fuel);
    } else {
      assert Sequential(w, {p});
      StepOrdered(w, p, rest, visited, fuel);
      assert Local(w, p);
      var v', s' := visited + {p}, PushFresh(Kids(w, p), visited + {p}, rest);
      forall k | 0 <= k < |s'|
        ensures s'[k] in Diagonal(e)
      {
        var q := s'[k];
        PushFreshIn(Kids(w, p), v', rest, q);
        if q !in rest {
          KidsWithin(w, e, p, q);
          KidsDiagonal(w, p, q);
          assert q == DualKey(q.key1, q.key1);
        }
      }
      TurnMeasure(w, stack, visited, t);
      ShallowRun(w, d, e, s', v', fuel);
    }
  }

  /** `deepEquals(a, a)` is `true` for every object of a region without
      maps and without sets nested in sets, given one unit of fuel for
      the sets' element probes and reflexive custom `equals`. */
  lemma DeepEqualsReflexiveShallow(w: World, d: set<Ref>, e: set<Ref>, a: Ref, fuel: nat)
    requires ValidWorld(w) && Shallow(w, d, e) && a in e && fuel >= 1
    ensures DeepEquals(w, a, a, fuel).verdict == Equal
  {
    assert DualKey(a, a) in Diagonal(e);
    ShallowRun(w, d, e, [DualKey(a, a)], {}, fuel);
  }

  // ------------------------------------------------------------ symmetry

  /** Every pair of `r` with its two sides swapped. */
  ghost function Transpose(r: set<DualKey>): set<DualKey> {
    set p | p in r :: DualKey(p.key2, p.key1)
  }

  /** The user classes' `equals` answers the same both ways round. */
  ghost predicate SymmetricEquals(w: World) {
    forall i, j :: i in w.heap && j in w.heap ==> w.equals(i, j) == w.equals(j, i)
  }

  /** The child pairs of a swapped pair are the swapped child pairs. */
  lemma KidsTransposed(w: World, p: DualKey, q: DualKey)
    requires ValidWorld(w) && PairOk(w, p) && Local(w, p) && q in Kids(w, DualKey(p.key2, p.key1))
    ensures DualKey(q.key2, q.key1) in Kids(w, p)
  {
    var n1, n2 := w.heap[p.key1.id], w.heap[p.key2.id];
    assert KindOf(n2.shape) == KindOf(n1.shape);
    if n1.shape.Plain? {
      var fs := DeepFields(w.table, n1.cls);
      FieldPairsIn(fs, n2, n1, q);
      var k :| 0 <= k < |fs| && ReadField(fs[k], n2).Some? && ReadField(fs[k], n1).Some?
        && q == DualKey(ReadField(fs[k], n2).value, ReadField(fs[k], n1).value);
      FieldPairsIn(fs, n1, n2, DualKey(q.key2, q.key1));
    } else {
      var e1, e2 := Items(n1.shape), Items(n2.shape);
      var k :| 0 <= k < |Zip(e2, e1)| && Zip(e2, e1)[k] == q;
      ZipIndex(e2, e1, k);
      ZipIndex(e1, e2, k);
    }
  }

  /** With a symmetric `equals`, swapping the sides of a consistent
      relation gives a consistent relation. */
  lemma TransposeBisim(w: World, r: set<DualKey>)
    requires ValidWorld(w) && SymmetricEquals(w) && Bisim(w, r)
    ensures Bisim(w, Transpose(r))
  {
    var t := Transpose(r);
    forall p' | p' in t
      ensures Consistent(w, t, p')
    {
      var p :| p in r && p' == DualKey(p.key2, p.key1);
      assert Consistent(w, r, p);
      if p.key1.Obj? && p.key2.Obj? {
        assert KindOf(w.heap[p.key2.id].shape) == KindOf(w.heap[p.key1.id].shape);
      }
      assert Local(w, p');
      forall q' | q' in Kids(w, p')
        ensures q' in t
      {
        KidsTransposed(w, p, q');
        var q := DualKey(q'.key2, q'.key1);
        assert q in r && q' == DualKey(q.key2, q.key1);
      }
    }
  }

  /** On heaps without sets and maps, with a symmetric custom `equals`,
      `deepEquals(a, b)` and `deepEquals(b, a)` give the same answer. */
  lemma DeepEqualsSymmetric(w: World, a: Ref, b: Ref, fuel: nat)
    requires ValidWorld(w) && Ordered(w) && SymmetricEquals(w) && RefOk(w.heap, a) && RefOk(w.heap, b)
    ensures DeepEquals(w, a, b, fuel).verdict == DeepEquals(w, b, a, fuel).verdict
  {
    DeepEqualsIsBisimilarity(w, a, b, fuel);
    DeepEqualsIsBisimilarity(w, b, a, fuel);
    if Bisimilar(w, a, b) {
      var r :| Bisim(w, r) && DualKey(a, b) in r;
      TransposeBisim(w, r);
      assert DualKey(b, a) in Transpose(r);
    }
    if Bisimilar(w, b, a) {
      var r :| Bisim(w, r) && DualKey(b, a) in r;
      TransposeBisim(w, r);
      assert DualKey(a, b) in Transpose(r);
    }
  }

  // ------------------------------------------------------------ hash consistency

  /** Every class overrides `equals` and `hashCode` together or neither. */
  ghost predicate PairedOverrides(w: World)
    requires ValidWorld(w)
  {
    forall i :: i in w.heap && w.heap[i].shape.Plain? ==>
      (CustomEquals(w.table, w.heap[i].cls) <==> CustomHashCode(w.table, w.heap[i].cls))
  }

  /** Java's `hashCode` contract: objects `equals` calls equal have equal
      hash codes. */
  ghost predicate HashContract(w: World) {
    forall i, j :: i in w.heap && j in w.heap && w.equals(i, j) ==> w.hashCode(i) == w.hashCode(j)
  }

  /** All instances of one class carry the same fields. */
  ghost predicate UniformSlots(w: World) {
    forall i, j ::
      (i in w.heap && j in w.heap && w.heap[i].cls == w.heap[j].cls && w.heap[i].shape.Plain? && w.heap[j].shape.Plain?) ==>
      w.heap[i].shape.slots.Keys == w.heap[j].shape.slots.Keys
  }

  lemma ReverseHas<T>(s: seq<T>, x: T)
    ensures x in Reverse(s) <==> x in s
  {
    if x in Reverse(s) {
      var k :| 0 <= k < |s| && Reverse(s)[k] == x;
      ReverseIndex(s, k);
    }
    if x in s {
      var k :| 0 <= k < |s| && s[k] == x;
      ReverseIndex(s, |s| - 1 - k);
    }
  }

  /** A value is among the readable field values exactly when some field
      reads it. */
  lemma {:induction false} FieldValuesHas(fs: seq<Field>, n: Node, x: Ref)
    ensures x in FieldValues(fs, n) <==> exists k :: 0 <= k < |fs| && ReadField(fs[k], n) == Some(x)
    decreases |fs|
  {
    if fs != [] {
      var init := fs[..|fs| - 1];
      FieldValuesHas(init, n, x);
      assert forall k :: 0 <= k < |init| ==> init[k] == fs[k];
    }
  }

  /** The objects of `v`'s partners: those related by `r` to a member
      of `v` as the left side. */
  ghost function LeftPartners(w: World, r: set<DualKey>, v: set<ObjId>): set<ObjId> {
    set x | x in w.heap && exists y :: y in v && DualKey(Obj(x), Obj(y)) in r
  }

  /** The same with `v` on the left. */
  ghost function RightPartners(w: World, r: set<DualKey>, v: set<ObjId>): set<ObjId> {
    set y | y in w.heap && exists x :: x in v && DualKey(Obj(x), Obj(y)) in r
  }

  /** Two related objects push related children for hashing: each child
      of either has a partner among the other's, related by `r`. */
  lemma HashKidsRelated(w: World, r: set<DualKey>, x: ObjId, y: ObjId)
    requires ValidWorld(w) && Ordered(w) && PairedOverrides(w) && UniformSlots(w) && Bisim(w, r)
    requires x in w.heap && y in w.heap && DualKey(Obj(x), Obj(y)) in r
    ensures forall c :: c in HashChildren(w, x) ==> exists c' :: c' in HashChildren(w, y) && DualKey(c, c') in r
    ensures forall c' :: c' in HashChildren(w, y) ==> exists c :: c in HashChildren(w, x) && DualKey(c, c') in r
  {
    var p := DualKey(Obj(x), Obj(y));
    assert Consistent(w, r, p);
    var n1, n2 := w.heap[x], w.heap[y];
    assert KindOf(n2.shape) == KindOf(n1.shape);
    if n1.shape.ArrayShape? || n1.shape.ListShape? {
      SeqKidsRelated(w, r, x, y);
    } else if !CustomHashCode(w.table, n1.cls) {
      FieldKidsRelated(w, r, x, y);
    }
  }

  /** The array and list case: the children are the items, paired by index. */
  lemma SeqKidsRelated(w: World, r: set<DualKey>, x: ObjId, y: ObjId)
    requires ValidWorld(w) && Bisim(w, r)
    requires x in w.heap && y in w.heap && DualKey(Obj(x), Obj(y)) in r
    requires w.heap[x].shape.ArrayShape? || w.heap[x].shape.ListShape?
    ensures forall c :: c in HashChildren(w, x) ==> exists c' :: c' in HashChildren(w, y) && DualKey(c, c') in r
    ensures forall c' :: c' in HashChildren(w, y) ==> exists c :: c in HashChildren(w, x) && DualKey(c, c') in r
  {
    var p := DualKey(Obj(x), Obj(y));
    assert Consistent(w, r, p);
    var n1, n2 := w.heap[x], w.heap[y];
    assert KindOf(n2.shape) == KindOf(n1.shape);
    var e1, e2 := Items(n1.shape), Items(n2.shape);
    forall k | 0 <= k < |e1|
      ensures DualKey(e1[k], e2[k]) in r
    {
      ZipIndex(e1, e2, k);
      assert Zip(e1, e2)[k] in Kids(w, p);
    }
    forall c | c in HashChildren(w, x)
      ensures exists c' :: c' in HashChildren(w, y) && DualKey(c, c') in r
    {
      ReverseHas(e1, c);
      var k :| 0 <= k < |e1| && e1[k] == c;
      ReverseHas(e2, e2[k]);
    }
    forall c' | c' in HashChildren(w, y)
      ensures exists c :: c in HashChildren(w, x) && DualKey(c, c') in r
    {
      ReverseHas(e2, c');
      var k :| 0 <= k < |e2| && e2[k] == c';
      ReverseHas(e1, e1[k]);
    }
  }

  /** The plain case without a custom hashCode: the children are the
      field values, paired by field. */
  lemma FieldKidsRelated(w: World, r: set<DualKey>, x: ObjId, y: ObjId)
    requires ValidWorld(w) && PairedOverrides(w) && UniformSlots(w) && Bisim(w, r)
    requires x in w.heap && y in w.heap && DualKey(Obj(x), Obj(y)) in r
    requires w.heap[x].shape.Plain? && !CustomHashCode(w.table, w.heap[x].cls)
    ensures forall c :: c in HashChildren(w, x) ==> exists c' :: c' in HashChildren(w, y) && DualKey(c, c') in r
    ensures forall c' :: c' in HashChildren(w, y) ==> exists c :: c in HashChildren(w, x) && DualKey(c, c') in r
  {
    var p := DualKey(Obj(x), Obj(y));
    assert Consistent(w, r, p);
    var n1, n2 := w.heap[x], w.heap[y];
    assert KindOf(n2.shape) == KindOf(n1.shape);
    var fs := DeepFields(w.table, n1.cls);
    assert n2.shape.slots.Keys == n1.shape.slots.Keys;
    assert HashChildren(w, x) == Reverse(FieldValues(fs, n1));
    assert HashChildren(w, y) == Reverse(FieldValues(fs, n2));
    forall c | c in HashChildren(w, x)
      ensures exists c' :: c' in HashChildren(w, y) && DualKey(c, c') in r
    {
      FieldChildForward(fs, n1, n2, r, c);
    }
    forall c' | c' in HashChildren(w, y)
      ensures exists c :: c in HashChildren(w, x) && DualKey(c, c') in r
    {
      FieldChildBackward(fs, n1, n2, r, c');
    }
  }

  /** A field value of `n1` has the value of the same field of `n2` as a
      partner, once every field pair is in `r`. */
  lemma FieldChildForward(fs: seq<Field>, n1: Node, n2: Node, r: set<DualKey>, c: Ref)
    requires n1.shape.Plain? && n2.shape.Plain? && n1.shape.slots.Keys == n2.shape.slots.Keys
    requires forall q :: q in FieldPairs(fs, n1, n2) ==> q in r
    requires c in Reverse(FieldValues(fs, n1))
    ensures exists c' :: c' in Reverse(FieldValues(fs, n2)) && DualKey(c, c') in r
  {
    ReverseHas(FieldValues(fs, n1), c);
    FieldValuesHas(fs, n1, c);
    var k :| 0 <= k < |fs| && ReadField(fs[k], n1) == Some(c);
    var c' := ReadField(fs[k], n2).value;
    FieldPairsIn(fs, n1, n2, DualKey(c, c'));
    FieldValuesHas(fs, n2, c');
    ReverseHas(FieldValues(fs, n2), c');
  }

  /** The mirror of `FieldChildForward`. */
  lemma FieldChildBackward(fs: seq<Field>, n1: Node, n2: Node, r: set<DualKey>, c': Ref)
    requires n1.shape.Plain? && n2.shape.Plain? && n1.shape.slots.Keys == n2.shape.slots.Keys
    requires forall q :: q in FieldPairs(fs, n1, n2) ==> q in r
    requires c' in Reverse(FieldValues(fs, n2))
    ensures exists c :: c in Reverse(FieldValues(fs, n1)) && DualKey(c, c') in r
  {
    ReverseHas(FieldValues(fs, n2), c');
    FieldValuesHas(fs, n2, c');
    var k :| 0 <= k < |fs| && ReadField(fs[k], n2) == Some(c');
    var c := ReadField(fs[k], n1).value;
    FieldPairsIn(fs, n1, n2, DualKey(c, c'));
    FieldValuesHas(fs, n1, c);
    ReverseHas(FieldValues(fs, n1), c);
  }

  /** The hashed children of every member of `v` lie in `v`. */
  ghost predicate KidsInside(w: World, v: set<ObjId>)
    requires ValidWorld(w)
  {
    forall y :: y in v && y in w.heap ==> InSet(v, HashChildren(w, y))
  }

  /** `KidsInside` is `IdClosed` for the hash graph. */
  lemma KidsInsideIsClosed(w: World, v: set<ObjId>)
    requires ValidWorld(w) && v <= w.heap.Keys
    ensures KidsInside(w, v) <==> IdClosed(HashGraph(w), v)
  {
    HashGraphIs(w);
  }

  /** A child object of a left partner is a left partner, through the
      partner's matching child. */
  lemma LeftPartnerKids(w: World, r: set<DualKey>, v: set<ObjId>, x: ObjId)
    requires ValidWorld(w) && Ordered(w) && PairedOverrides(w) && UniformSlots(w) && Bisim(w, r)
    requires v <= w.heap.Keys && KidsInside(w, v) && x in LeftPartners(w, r, v)
    ensures InSet(LeftPartners(w, r, v), HashChildren(w, x))
  {
    var t := LeftPartners(w, r, v);
    var y :| y in v && DualKey(Obj(x), Obj(y)) in r;
    HashKidsRelated(w, r, x, y);
    var ch := HashChildren(w, x);
    forall k | 0 <= k < |ch| && ch[k].Obj?
      ensures ch[k].id in t
    {
      assert ch[k] in ch;
      var c' :| c' in HashChildren(w, y) && DualKey(ch[k], c') in r;
      PartnerStep(w, r, v, y, c', DualKey(ch[k], c'));
    }
  }

  /** A child object of a right partner is a right partner. */
  lemma RightPartnerKids(w: World, r: set<DualKey>, v: set<ObjId>, y: ObjId)
    requires ValidWorld(w) && Ordered(w) && PairedOverrides(w) && UniformSlots(w) && Bisim(w, r)
    requires v <= w.heap.Keys && KidsInside(w, v) && y in RightPartners(w, r, v)
    ensures InSet(RightPartners(w, r, v), HashChildren(w, y))
  {
    var t := RightPartners(w, r, v);
    var x :| x in v && DualKey(Obj(x), Obj(y)) in r;
    HashKidsRelated(w, r, x, y);
    var ch := HashChildren(w, y);
    forall k | 0 <= k < |ch| && ch[k].Obj?
      ensures ch[k].id in t
    {
      assert ch[k] in ch;
      var c :| c in HashChildren(w, x) && DualKey(c, ch[k]) in r;
      PartnerStep(w, r, v, x, c, DualKey(c, ch[k]));
    }
  }

  /** A related pair one of whose objects is a hashed child `c` of a
      member `y` of `v`: both sides are objects and `c` lies in `v`. */
  lemma PartnerStep(w: World, r: set<DualKey>, v: set<ObjId>, y: ObjId, c: Ref, q: DualKey)
    requires ValidWorld(w) && Bisim(w, r) && y in v && y in w.heap && KidsInside(w, v)
    requires c in HashChildren(w, y) && q in r && (q.key1 == c || q.key2 == c)
    requires q.key1.Obj? || q.key2.Obj?
    ensures q.key1.Obj? && q.key2.Obj? && q.key1.id in w.heap && q.key2.id in w.heap && c.id in v
  {
    assert Consistent(w, r, q);
    var m :| 0 <= m < |HashChildren(w, y)| && HashChildren(w, y)[m] == c;
    assert InSet(v, HashChildren(w, y));
  }

  /** The partners of a children-closed visited set, on either side,
      are children-closed. */
  lemma PartnersClosed(w: World, r: set<DualKey>, v: set<ObjId>)
    requires ValidWorld(w) && Ordered(w) && PairedOverrides(w) && UniformSlots(w) && Bisim(w, r)
    requires v <= w.heap.Keys && IdClosed(HashGraph(w), v)
    ensures IdClosed(HashGraph(w), LeftPartners(w, r, v))
    ensures IdClosed(HashGraph(w), RightPartners(w, r, v))
  {
    KidsInsideIsClosed(w, v);
    forall x | x in LeftPartners(w, r, v)
      ensures InSet(LeftPartners(w, r, v), HashChildren(w, x))
    {
      LeftPartnerKids(w, r, v, x);
    }
    forall y | y in RightPartners(w, r, v)
      ensures InSet(RightPartners(w, r, v), HashChildren(w, y))
    {
      RightPartnerKids(w, r, v, y);
    }
    KidsInsideIsClosed(w, LeftPartners(w, r, v));
    KidsInsideIsClosed(w, RightPartners(w, r, v));
  }

  /** Related objects of which one is hashed by its own `hashCode` are
      the same object: `equals` relates them, so the contract makes
      their hash codes equal and the visited `HashSet` takes them for
      one another. */
  lemma ContributorsIdentical(w: World, r: set<DualKey>, x: ObjId, y: ObjId)
    requires ValidWorld(w) && IdentityDedup(w) && PairedOverrides(w) && HashContract(w) && Bisim(w, r)
    requires x in w.heap && y in w.heap && DualKey(Obj(x), Obj(y)) in r
    requires Contributes(w, x) || Contributes(w, y)
    ensures x == y
  {
    assert Consistent(w, r, DualKey(Obj(x), Obj(y)));
    assert KindOf(w.heap[y].shape) == KindOf(w.heap[x].shape);
    assert HashSetEquals(w, x, y);
  }

  /** Only a sub-set of the nodes weighs: the sum over the whole is the
      sum over that part. */
  lemma {:induction false} SumOfSupport(g: Graph, s: set<ObjId>, c: set<ObjId>)
    requires c <= s && forall o :: o in s && o !in c ==> Weight(g, o) == 0
    ensures Sum(g, s) == Sum(g, c)
    decreases s - c
  {
    if s != c {
      var y :| y in s && y !in c;
      SumDrop(g, s, y);
      assert y in s - c && y !in s - {y} - c;
      SumOfSupport(g, s - {y}, c);
    }
  }

  /** The objects of a visited set hashed by their own `hashCode`. */
  ghost function Contributors(w: World, v: set<ObjId>): set<ObjId>
    requires ValidWorld(w)
  {
    set o | o in v && o in w.heap && Contributes(w, o)
  }

  /** The deep hash is the wrapped sum over the contributors it visits. */
  lemma HashOfContributors(w: World, a: ObjId)
    requires ValidWorld(w) && a in w.heap
    ensures DeepHash(w, Obj(a)) == Wrap32(Sum(HashGraph(w), Contributors(w, HashVisited(w, Obj(a)))))
  {
    var g, v := HashGraph(w), HashVisited(w, Obj(a));
    HashGraphIs(w);
    DeepHashIsSum(w, Obj(a));
    SumOfSupport(g, v, Contributors(w, v));
  }

  /** Hash consistency: on heaps without sets and maps, when `HashSet`
      de-duplication is identity, every class overrides `equals` and
      `hashCode` together and keeps their contract, and all instances of
      a class carry the same fields, deeply equal objects have equal
      deep hashes.  Both visits reach, up to the relation `deepEquals`
      builds, the same objects, and the objects hashed by their own
      `hashCode` are related only to themselves. */
  lemma DeepEqualsHashConsistent(w: World, a: Ref, b: Ref, fuel: nat)
    requires ValidWorld(w) && Ordered(w) && IdentityDedup(w)
    requires PairedOverrides(w) && HashContract(w) && UniformSlots(w)
    requires RefOk(w.heap, a) && RefOk(w.heap, b) && DeepEquals(w, a, b, fuel).verdict == Equal
    ensures DeepHash(w, a) == DeepHash(w, b)
  {
    DeepEqualsIsBisimilarity(w, a, b, fuel);
    var r :| Bisim(w, r) && DualKey(a, b) in r;
    assert Local(w, DualKey(a, b));
    if a.Obj? && b.Obj? {
      var va, vb := HashVisited(w, a), HashVisited(w, b);
      DeepHashReachable(w, a.id);
      DeepHashReachable(w, b.id);
      PartnersClosed(w, r, vb);
      PartnersClosed(w, r, va);
      assert a == Obj(a.id) && b == Obj(b.id);
      assert a.id in LeftPartners(w, r, vb) && b.id in RightPartners(w, r, va);
      DeepHashLeast(w, a, LeftPartners(w, r, vb));
      DeepHashLeast(w, b, RightPartners(w, r, va));
      SameContributors(w, r, va, vb);
      HashOfContributors(w, a.id);
      HashOfContributors(w, b.id);
    }
  }

  /** Visited sets that lie inside each other's partners hold the same
      contributors. */
  lemma SameContributors(w: World, r: set<DualKey>, va: set<ObjId>, vb: set<ObjId>)
    requires ValidWorld(w) && IdentityDedup(w) && PairedOverrides(w) && HashContract(w) && Bisim(w, r)
    requires va <= LeftPartners(w, r, vb) && vb <= RightPartners(w, r, va)
    ensures Contributors(w, va) == Contributors(w, vb)
  {
    forall x | x in Contributors(w, va)
      ensures x in Contributors(w, vb)
    {
      var y :| y in vb && DualKey(Obj(x), Obj(y)) in r;
      ContributorsIdentical(w, r, x, y);
    }
    forall y | y in Contributors(w, vb)
      ensures y in Contributors(w, va)
    {
      var x :| x in va && DualKey(Obj(x), Obj(y)) in r;
      ContributorsIdentical(w, r, x, y);
    }
  }
}
