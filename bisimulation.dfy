/** What `deepEquals` computes on graphs without sets and maps: the two
    roots are related by a relation on pairs of references in which every
    pair agrees on its own (same null-ness, same class, same length,
    custom `equals` holds) and the child pairs of every pair are again in
    the relation.  The loop accepts exactly when such a relation exists,
    cycles included, and then no fuel is ever needed. */
module Bisimulation {
  import opened ObjectGraph
  import opened Capabilities
  import opened Pairs
  import opened DeepEq

  /** No object is a `Set` or `Map`, so no nested probe is ever made. */
  ghost predicate Ordered(w: World) {
    forall i :: i in w.heap ==> !w.heap[i].shape.SetShape? && !w.heap[i].shape.MapShape?
  }

  /** No pair of `r` starts with a `Set` or `Map`, so popping one makes
      no nested probe. */
  ghost predicate Sequential(w: World, r: set<DualKey>) {
    forall p :: p in r && p.key1.Obj? && p.key1.id in w.heap ==>
      !w.heap[p.key1.id].shape.SetShape? && !w.heap[p.key1.id].shape.MapShape?
  }

  /** The checks the loop makes on a pair itself. */
  ghost predicate Local(w: World, p: DualKey)
    requires ValidWorld(w) && PairOk(w, p)
  {
    if p.key1.Null? || p.key2.Null? then p.key1 == p.key2
    else
      var n1, n2 := w.heap[p.key1.id], w.heap[p.key2.id];
      && n1.cls == n2.cls
      && (n1.shape.Plain? ==> CustomEquals(w.table, n1.cls) ==> w.equals(p.key1.id, p.key2.id))
      && (!n1.shape.Plain? ==> |Items(n1.shape)| == |Items(n2.shape)|)
  }

  /** The pairs a pair hands on to be compared. */
  ghost function Kids(w: World, p: DualKey): seq<DualKey>
    requires ValidWorld(w) && PairOk(w, p)
  {
    if p.key1.Null? || p.key2.Null? then []
    else
      var n1, n2 := w.heap[p.key1.id], w.heap[p.key2.id];
      if n1.shape.Plain? then
        if CustomEquals(w.table, n1.cls) then [] else FieldPairs(DeepFields(w.table, n1.cls), n1, n2)
      else if |Items(n1.shape)| == |Items(n2.shape)| then Zip(Items(n1.shape), Items(n2.shape))
      else []
  }

  /** The pair passes its own checks and its child pairs are in `r`. */
  ghost predicate Consistent(w: World, r: set<DualKey>, p: DualKey)
    requires ValidWorld(w)
  {
    PairOk(w, p) && Local(w, p) && forall q :: q in Kids(w, p) ==> q in r
  }

  /** A relation between the two graphs that is consistent everywhere. */
  ghost predicate Bisim(w: World, r: set<DualKey>)
    requires ValidWorld(w)
  {
    forall p :: p in r ==> Consistent(w, r, p)
  }

  /** Two graphs are bisimilar from `a` and `b`. */
  ghost predicate Bisimilar(w: World, a: Ref, b: Ref)
    requires ValidWorld(w)
  {
    exists r :: Bisim(w, r) && DualKey(a, b) in r
  }

  lemma {:induction false} ZipOk(w: World, a: seq<Ref>, b: seq<Ref>, x: DualKey)
    requires |a| == |b| && RefsOk(w, a) && RefsOk(w, b) && x in Zip(a, b)
    ensures PairOk(w, x)
    decreases |a|
  {
    if x != DualKey(a[0], b[0]) {
      assert RefsOk(w, a[1..]) && RefsOk(w, b[1..]);
      ZipOk(w, a[1..], b[1..], x);
    }
  }

  /** Child pairs are pairs of the heap. */
  lemma KidsOk(w: World, p: DualKey, x: DualKey)
    requires ValidWorld(w) && PairOk(w, p) && x in Kids(w, p)
    ensures PairOk(w, x)
  {
    var n1, n2 := w.heap[p.key1.id], w.heap[p.key2.id];
    if n1.shape.Plain? {
      var fs := DeepFields(w.table, n1.cls);
      FieldPairsIn(fs, n1, n2, x);
      var k :| 0 <= k < |fs| && ReadField(fs[k], n1).Some? && ReadField(fs[k], n2).Some?
        && x == DualKey(ReadField(fs[k], n1).value, ReadField(fs[k], n2).value);
      ReadClosed(w.heap, fs[k], n1);
      ReadClosed(w.heap, fs[k], n2);
    } else {
      ItemsOk(w, n1.shape);
      ItemsOk(w, n2.shape);
      ZipOk(w, Items(n1.shape), Items(n2.shape), x);
    }
  }

  /** With no sets and maps one turn either fails the pair's own checks
      or pushes its unvisited children. */
  lemma StepOrdered(w: World, p: DualKey, rest: seq<DualKey>, visited: set<DualKey>, fuel: nat)
    requires ValidWorld(w) && Sequential(w, {p}) && PairOk(w, p)
    ensures Step(w, p, rest, visited, fuel) ==
      if Local(w, p) then Go(PushFresh(Kids(w, p), visited + {p}, rest), visited + {p})
      else Stop(Unequal, visited + {p})
  {
  }

  /** Every visited pair passed its checks and has its children visited
      or still on the stack. */
  ghost predicate Checked(w: World, stack: seq<DualKey>, visited: set<DualKey>)
    requires ValidWorld(w)
  {
    forall q :: q in visited ==>
      PairOk(w, q) && Local(w, q) && forall c :: c in Kids(w, q) ==> c in visited || c in stack
  }

  /** A loop that empties its stack leaves a consistent relation behind
      in `visited`; it never runs out of fuel. */
  lemma {:induction false} RunSound(w: World, stack: seq<DualKey>, visited: set<DualKey>, fuel: nat)
    requires ValidWorld(w) && Ordered(w) && Checked(w, stack, visited)
    ensures Run(w, stack, visited, fuel).verdict != OutOfFuel
    ensures Run(w, stack, visited, fuel).verdict == Equal ==> Bisim(w, Run(w, stack, visited, fuel).visited)
    decreases Universe(w) - visited, Count(stack, visited)
  {
    if stack == [] {
      return;
    }
    var p, rest := stack[0], stack[1..];
    if !PairOk(w, p) {
      return;
    }
    StepOrdered(w, p, rest, visited, fuel);
    if !Local(w, p) {
      return;
    }
    var t := Step(w, p, rest, visited, fuel);
    var v', s' := visited + {p}, PushFresh(Kids(w, p), visited + {p}, rest);
    forall q | q in v'
      ensures PairOk(w, q) && Local(w, q) && forall c :: c in Kids(w, q) ==> c in v' || c in s'
    {
      forall c | c in Kids(w, q)
        ensures c in v' || c in s'
      {
        PushFreshIn(Kids(w, p), v', rest, c);
        if q != p {
          assert c in visited || c in stack;
          assert c == p || c in rest || c in visited;
        }
      }
    }
    TurnMeasure(w, stack, visited, t);
    RunSound(w, s', v', fuel);
  }

  /** A consistent relation holding every stack pair makes the loop
      accept, whatever `visited` holds already, and the loop marks no
      pair outside the relation. */
  lemma {:induction false} RunComplete(w: World, stack: seq<DualKey>, visited: set<DualKey>, fuel: nat, r: set<DualKey>)
    requires ValidWorld(w) && Sequential(w, r) && Bisim(w, r)
    requires forall k :: 0 <= k < |stack| ==> stack[k] in r
    ensures Run(w, stack, visited, fuel).verdict == Equal
    ensures Run(w, stack, visited, fuel).visited <= visited + r
    decreases Universe(w) - visited, Count(stack, visited)
  {
    if stack == [] {
      return;
    }
    var p, rest := stack[0], stack[1..];
    assert p in r;
    assert Sequential(w, {p});
    StepOrdered(w, p, rest, visited, fuel);
    var t := Step(w, p, rest, visited, fuel);
    var v', s' := visited + {p}, PushFresh(Kids(w, p), visited + {p}, rest);
    forall k | 0 <= k < |s'|
      ensures s'[k] in r
    {
      PushFreshIn(Kids(w, p), v', rest, s'[k]);
      if s'[k] in rest {
        var j :| 0 <= j < |rest| && rest[j] == s'[k];
        assert stack[j + 1] == rest[j];
      }
    }
    TurnMeasure(w, stack, visited, t);
    RunComplete(w, s', v', fuel, r);
  }

  /** On graphs without sets and maps, `deepEquals(a, b)` is `true`
      exactly when the graphs are bisimilar from `a` and `b`, and it is
      never cut short by fuel: cycles alone cannot make it diverge. */
  lemma DeepEqualsIsBisimilarity(w: World, a: Ref, b: Ref, fuel: nat)
    requires ValidWorld(w) && Ordered(w) && RefOk(w.heap, a) && RefOk(w.heap, b)
    ensures DeepEquals(w, a, b, fuel).verdict != OutOfFuel
    ensures DeepEquals(w, a, b, fuel).verdict == Equal <==> Bisimilar(w, a, b)
  {
    var root := DualKey(a, b);
    RunSound(w, [root], {}, fuel);
    var c := DeepEquals(w, a, b, fuel);
    if c.verdict == Equal {
      PoppedIsMarked(w, root, [], {}, fuel);
      assert [root] + [] == [root];
      assert Bisim(w, c.visited) && root in c.visited;
    }
    if Bisimilar(w, a, b) {
      var r :| Bisim(w, r) && root in r;
      RunComplete(w, [root], {}, fuel, r);
    }
  }

  /** A consistent relation holds the child pairs of its pairs. */
  lemma KidRelated(w: World, r: set<DualKey>, p: DualKey, q: DualKey)
    requires ValidWorld(w) && Bisim(w, r) && p in r && PairOk(w, p) && q in Kids(w, p)
    ensures q in r && Consistent(w, r, q)
  {
  }

  /** A consistent relation holding the root pair is a proof that
      `deepEquals` accepts. */
  lemma RelatedAreEqual(w: World, r: set<DualKey>, a: Ref, b: Ref, fuel: nat)
    requires ValidWorld(w) && Sequential(w, r) && Bisim(w, r) && DualKey(a, b) in r
    ensures DeepEquals(w, a, b, fuel).verdict == Equal
  {
    RunComplete(w, [DualKey(a, b)], {}, fuel, r);
  }

  /** Hence the verdict does not depend on the fuel. */
  lemma FuelIrrelevant(w: World, a: Ref, b: Ref, fuel1: nat, fuel2: nat)
    requires ValidWorld(w) && Ordered(w) && RefOk(w.heap, a) && RefOk(w.heap, b)
    ensures DeepEquals(w, a, b, fuel1).verdict == DeepEquals(w, a, b, fuel2).verdict
  {
    DeepEqualsIsBisimilarity(w, a, b, fuel1);
    DeepEqualsIsBisimilarity(w, a, b, fuel2);
  }

  /** `deepEquals` is reflexive on such graphs: the identity relation on
      the heap is consistent (this needs a reflexive custom `equals`). */
  lemma DeepEqualsReflexive(w: World, a: Ref, fuel: nat)
    requires ValidWorld(w) && Ordered(w) && RefOk(w.heap, a)
    requires forall i :: i in w.heap ==> w.equals(i, i)
    ensures DeepEquals(w, a, a, fuel).verdict == Equal
  {
    var r := set x | x in Refs(w) :: DualKey(x, x);
    RefIn(w, a);
    forall p | p in r
      ensures Consistent(w, r, p)
    {
      forall q | q in Kids(w, p)
        ensures q in r
      {
        KidsOk(w, p, q);
        KidsDiagonal(w, p, q);
        RefIn(w, q.key1);
        assert q == DualKey(q.key1, q.key1);
      }
    }
    assert Bisim(w, r) && DualKey(a, a) in r;
    DeepEqualsIsBisimilarity(w, a, a, fuel);
  }

  /** The child pairs of a pair `(x, x)` are of the same form. */
  lemma KidsDiagonal(w: World, p: DualKey, q: DualKey)
    requires ValidWorld(w) && PairOk(w, p) && p.key1 == p.key2 && q in Kids(w, p)
    ensures q.key1 == q.key2
  {
    var n := w.heap[p.key1.id];
    if n.shape.Plain? {
      var fs := DeepFields(w.table, n.cls);
      FieldPairsIn(fs, n, n, q);
    } else {
      var e := Items(n.shape);
      var k :| 0 <= k < |Zip(e, e)| && Zip(e, e)[k] == q;
      ZipIndex(e, e, k);
    }
  }
}
