/** `deepEquals(a, b, visited)` and `compareUnordered`: the work-list
    comparison of two object graphs.  A stack of `DualKey` pairs is
    worked off top first; every popped pair is added to `visited` at
    once, and a child pair is pushed only when `visited` does not hold it
    yet.  Set elements and map keys are matched by nested `deepEquals`
    calls that share the same `visited` set.

    Nested calls can recurse without end (a map that holds itself as a
    key), so they draw on `fuel`: a nested call made with no fuel left
    yields `OutOfFuel`.  The stack loop itself needs no fuel. */
module DeepEq {
  import opened ObjectGraph
  import opened Capabilities
  import opened Pairs
  import opened Hashing

  /** `true`, `false`, or: the nested calls went deeper than the fuel. */
  datatype Verdict = Equal | Unequal | OutOfFuel

  /** A verdict and the `visited` set the comparison leaves behind. */
  datatype Comparison = Comparison(verdict: Verdict, visited: set<DualKey>)

  /** What one turn of the loop leaves: a verdict that ends the loop
      (`return`), or the stack to go on with (`continue`). */
  datatype Turn =
    | Stop(verdict: Verdict, visited: set<DualKey>)
    | Go(stack: seq<DualKey>, visited: set<DualKey>)

  /** The inner `for` loop looking for a match: `Equal` when one was found,
      at index `at`. */
  datatype Search = Search(verdict: Verdict, visited: set<DualKey>, at: nat)

  /** The outer loop of the map branch, with the stack it pushed on. */
  datatype Matching = Matching(verdict: Verdict, visited: set<DualKey>, stack: seq<DualKey>)

  // ------------------------------------------------------------ pairs and their measure

  /** Both components are null or objects of the heap. */
  ghost predicate PairOk(w: World, p: DualKey) {
    RefOk(w.heap, p.key1) && RefOk(w.heap, p.key2)
  }

  ghost function Refs(w: World): set<Ref> {
    {Null} + set id | id in w.heap :: Obj(id)
  }

  /** All pairs the loop can ever mark: finitely many, so the loop ends. */
  ghost function Universe(w: World): set<DualKey> {
    set a, b | a in Refs(w) && b in Refs(w) :: DualKey(a, b)
  }

  lemma InUniverse(w: World, p: DualKey)
    requires PairOk(w, p)
    ensures p in Universe(w)
  {
    RefIn(w, p.key1);
    RefIn(w, p.key2);
  }

  lemma RefIn(w: World, r: Ref)
    requires RefOk(w.heap, r)
    ensures r in Refs(w)
  {
    if r.Obj? {
      assert r == Obj(r.id) && r.id in w.heap;
    }
  }

  /** `visited` only grows, and only by pairs of the heap. */
  ghost predicate Grows(w: World, v: set<DualKey>, v': set<DualKey>) {
    v <= v' && forall p {:trigger p in v'} :: p in v' && p !in v ==> PairOk(w, p)
  }

  /** The number of stack entries already marked. */
  function Count(stack: seq<DualKey>, v: set<DualKey>): nat {
    if stack == [] then 0 else (if stack[0] in v then 1 else 0) + Count(stack[1..], v)
  }

  /** `for (...) { dk = ...; if (!visited.contains(dk)) stack.addFirst(dk); }`
      over the given pairs in order. */
  function PushFresh(pairs: seq<DualKey>, v: set<DualKey>, stack: seq<DualKey>): (r: seq<DualKey>)
    ensures Count(r, v) == Count(stack, v)
  {
    if pairs == [] then stack
    else PushFresh(pairs[1..], v, if pairs[0] in v then stack else [pairs[0]] + stack)
  }

  /** The element pairs of two arrays or collections of equal length. */
  function Zip(a: seq<Ref>, b: seq<Ref>): (r: seq<DualKey>)
    requires |a| == |b|
    ensures |r| == |a|
  {
    if a == [] then [] else [DualKey(a[0], b[0])] + Zip(a[1..], b[1..])
  }

  /** `new DualKey(field.get(a), field.get(b))` per field in order; a field
      whose read fails on either side is skipped. */
  function FieldPairs(fs: seq<Field>, n1: Node, n2: Node): seq<DualKey> {
    if fs == [] then []
    else
      var r1, r2 := ReadField(fs[0], n1), ReadField(fs[0], n2);
      (if r1.Some? && r2.Some? then [DualKey(r1.value, r2.value)] else []) + FieldPairs(fs[1..], n1, n2)
  }

  // ------------------------------------------------------------ the specification

  /** The loop of `deepEquals` from a given stack (top first) and
      `visited` set: `Equal` when the stack runs empty. */
  ghost function Run(w: World, stack: seq<DualKey>, visited: set<DualKey>, fuel: nat): (r: Comparison)
    requires ValidWorld(w)
    ensures Grows(w, visited, r.visited)
    decreases fuel, 4, Universe(w) - visited, Count(stack, visited)
  {
    if stack == [] then Comparison(Equal, visited)
    else
      var t := Step(w, stack[0], stack[1..], visited, fuel);
      if t.Stop? then Comparison(t.verdict, t.visited)
      else
        TurnMeasure(w, stack, visited, t);
        Run(w, t.stack, t.visited, fuel)
  }

  /** One turn of the loop on the popped pair `p`, with `rest` below it. */
  ghost function Step(w: World, p: DualKey, rest: seq<DualKey>, visited: set<DualKey>, fuel: nat): (t: Turn)
    requires ValidWorld(w)
    ensures Grows(w, visited, t.visited)
    ensures t.Go? ==> PairOk(w, p)
    ensures PairOk(w, p) ==> p in t.visited
    ensures t.Go? && t.visited == visited ==> Count(t.stack, visited) == Count(rest, visited)
    decreases fuel, 3
  {
    if !PairOk(w, p) then Stop(Unequal, visited)  // no such pair in a closed heap
    else
      var v := visited + {p};
      if p.key1.Null? || p.key2.Null? then
        if p.key1 != p.key2 then Stop(Unequal, v) else Go(rest, v)
      else
        var n1, n2 := w.heap[p.key1.id], w.heap[p.key2.id];
        if n1.cls != n2.cls then Stop(Unequal, v)
        else match n1.shape
          case ArrayShape(e1) =>
            var e2 := Items(n2.shape);
            if |e1| != |e2| then Stop(Unequal, v) else Go(PushFresh(Zip(e1, e2), v, rest), v)
          case SetShape(e1) =>
            var c := Unordered(w, p.key1.id, p.key2.id, e1, Items(n2.shape), v, fuel);
            if c.verdict == Equal then Go(rest, c.visited) else Stop(c.verdict, c.visited)
          case ListShape(e1) =>
            var e2 := Items(n2.shape);
            if |e1| != |e2| then Stop(Unequal, v) else Go(PushFresh(Zip(e1, e2), v, rest), v)
          case MapShape(es1) =>
            var es2 := Entries(n2.shape);
            if |es1| != |es2| then Stop(Unequal, v)
            else
              var m := MatchEntries(w, es1, 0, es2, v, fuel, rest);
              if m.verdict == Equal then Go(m.stack, m.visited) else Stop(m.verdict, m.visited)
          case Plain(_) =>
            if CustomEquals(w.table, n1.cls) then
              if w.equals(p.key1.id, p.key2.id) then Go(rest, v) else Stop(Unequal, v)
            else Go(PushFresh(FieldPairs(DeepFields(w.table, n1.cls), n1, n2), v, rest), v)
  }

  /** `compareUnordered(set1, set2, visited)`: sizes, then deep hashes
      of the two sets, then every left element must find a right one. */
  ghost function Unordered(w: World, s1: ObjId, s2: ObjId, e1: seq<Ref>, e2: seq<Ref>,
                           visited: set<DualKey>, fuel: nat): (c: Comparison)
    requires ValidWorld(w)
    ensures Grows(w, visited, c.visited)
    decreases fuel, 2
  {
    if |e1| != |e2| then Comparison(Unequal, visited)
    else if DeepHash(w, Obj(s1)) != DeepHash(w, Obj(s2)) then Comparison(Unequal, visited)
    else ContainsAll(w, e1, 0, e2, visited, fuel)
  }

  /** The outer loop of `compareUnordered` from left element `i` on:
      `return false` as soon as a left element finds no deep-equal right
      element. */
  ghost function ContainsAll(w: World, e1: seq<Ref>, i: nat, e2: seq<Ref>, visited: set<DualKey>, fuel: nat): (c: Comparison)
    requires ValidWorld(w)
    ensures Grows(w, visited, c.visited)
    decreases fuel, 1, |e1| - i
  {
    if i >= |e1| then Comparison(Equal, visited)
    else
      var f := FindMatch(w, e1[i], e2, 0, visited, fuel);
      if f.verdict != Equal then Comparison(f.verdict, f.visited)
      else ContainsAll(w, e1, i + 1, e2, f.visited, fuel)
  }

  /** The inner loop from candidate `j` on: the first right candidate
      that a nested `deepEquals(x, candidate, visited)` accepts. */
  ghost function FindMatch(w: World, x: Ref, e2: seq<Ref>, j: nat, visited: set<DualKey>, fuel: nat): (s: Search)
    requires ValidWorld(w)
    ensures Grows(w, visited, s.visited)
    ensures s.verdict == Equal ==> j <= s.at < |e2|
    decreases fuel, 0, |e2| - j
  {
    if j >= |e2| then Search(Unequal, visited, j)
    else if fuel == 0 then Search(OutOfFuel, visited, j)
    else
      var r := Run(w, [DualKey(x, e2[j])], visited, fuel - 1);
      if r.verdict == Unequal then FindMatch(w, x, e2, j + 1, r.visited, fuel)
      else Search(r.verdict, r.visited, j)
  }

  /** The map branch from left entry `i` on: each left key needs a right
      key that a nested `deepEquals` accepts, and the pair of their values
      is pushed unless already visited. */
  ghost function MatchEntries(w: World, es1: seq<Entry>, i: nat, es2: seq<Entry>, visited: set<DualKey>,
                              fuel: nat, stack: seq<DualKey>): (m: Matching)
    requires ValidWorld(w)
    ensures Grows(w, visited, m.visited)
    ensures m.visited == visited ==> Count(m.stack, visited) == Count(stack, visited)
    decreases fuel, 1, |es1| - i
  {
    if i >= |es1| then Matching(Equal, visited, stack)
    else
      var f := FindMatch(w, es1[i].key, KeysOf(es2), 0, visited, fuel);
      if f.verdict != Equal then Matching(f.verdict, f.visited, stack)
      else
        var dk := DualKey(es1[i].value, es2[f.at].value);
        var m := MatchEntries(w, es1, i + 1, es2, f.visited, fuel, if dk in f.visited then stack else [dk] + stack);
        Between(visited, f.visited, m.visited);
        m
  }

  lemma Between<T>(a: set<T>, b: set<T>, c: set<T>)
    requires a <= b <= c
    ensures c == a ==> b == a
  {
  }

  /** A turn that goes on makes the loop's measure drop: it marked a new
      pair, or it marked nothing new and popped an entry already marked. */
  lemma TurnMeasure(w: World, stack: seq<DualKey>, visited: set<DualKey>, t: Turn)
    requires stack != [] && t.Go? && Grows(w, visited, t.visited)
    requires PairOk(w, stack[0]) && stack[0] in t.visited
    requires t.visited == visited ==> Count(t.stack, visited) == Count(stack[1..], visited)
    ensures Universe(w) - t.visited < Universe(w) - visited
         || (Universe(w) - t.visited == Universe(w) - visited && Count(t.stack, t.visited) < Count(stack, visited))
  {
    var u := Universe(w);
    InUniverse(w, stack[0]);
    if stack[0] !in visited {
      assert stack[0] in u - visited && stack[0] !in u - t.visited;
    } else if t.visited != visited {
      var x :| x in t.visited && x !in visited;
      InUniverse(w, x);
      assert x in u - visited && x !in u - t.visited;
    }
  }

  /** `deepEquals(a, b)`: a fresh `visited` set. */
  ghost function DeepEquals(w: World, a: Ref, b: Ref, fuel: nat): Comparison
    requires ValidWorld(w)
  {
    Run(w, [DualKey(a, b)], {}, fuel)
  }

  // ------------------------------------------------------------ properties of the loop

  /** The pairs of `pairs` not yet in `v`, in order. */
  function Unvisited(pairs: seq<DualKey>, v: set<DualKey>): (r: seq<DualKey>)
    ensures forall x :: x in r <==> x in pairs && x !in v
  {
    if pairs == [] then [] else (if pairs[0] in v then [] else [pairs[0]]) + Unvisited(pairs[1..], v)
  }

  lemma ReverseCons<T>(x: T, s: seq<T>)
    ensures Reverse([x] + s) == Reverse(s) + [x]
  {
    var a, b := Reverse([x] + s), Reverse(s) + [x];
    forall k | 0 <= k < |a|
      ensures a[k] == b[k]
    {
      ReverseIndex([x] + s, k);
      if k < |s| {
        ReverseIndex(s, k);
      }
    }
  }

  /** A child pair goes on the stack only when `visited` does not hold
      it, and the pushes in order leave the last one on top. */
  lemma {:induction false} PushFreshIs(pairs: seq<DualKey>, v: set<DualKey>, stack: seq<DualKey>)
    ensures PushFresh(pairs, v, stack) == Reverse(Unvisited(pairs, v)) + stack
    decreases |pairs|
  {
    if pairs != [] {
      var x, rest := pairs[0], pairs[1..];
      var u := Unvisited(rest, v);
      if x !in v {
        calc {
          PushFresh(pairs, v, stack);
          PushFresh(rest, v, [x] + stack);
          { PushFreshIs(rest, v, [x] + stack); }
          Reverse(u) + ([x] + stack);
          (Reverse(u) + [x]) + stack;
          { ReverseCons(x, u); }
          Reverse([x] + u) + stack;
          { assert Unvisited(pairs, v) == [x] + u; }
          Reverse(Unvisited(pairs, v)) + stack;
        }
      } else {
        PushFreshIs(rest, v, stack);
        assert Unvisited(pairs, v) == u;
      }
    }
  }

  /** What the stack holds after the pushes. */
  lemma PushFreshIn(pairs: seq<DualKey>, v: set<DualKey>, stack: seq<DualKey>, x: DualKey)
    ensures x in PushFresh(pairs, v, stack) <==> x in stack || (x in pairs && x !in v)
  {
    PushFreshIs(pairs, v, stack);
    var u := Unvisited(pairs, v);
    if x in Reverse(u) {
      var k :| 0 <= k < |u| && Reverse(u)[k] == x;
      ReverseIndex(u, k);
    }
    if x in u {
      var k :| 0 <= k < |u| && u[k] == x;
      ReverseIndex(u, |u| - 1 - k);
    }
  }

  /** The `k`-th element pair of two arrays or collections. */
  lemma {:induction false} ZipIndex(a: seq<Ref>, b: seq<Ref>, k: int)
    requires |a| == |b| && 0 <= k < |a|
    ensures Zip(a, b)[k] == DualKey(a[k], b[k])
    decreases k
  {
    if k > 0 {
      ZipIndex(a[1..], b[1..], k - 1);
    }
  }

  /** A field pair exists exactly for the fields readable on both sides. */
  lemma {:induction false} FieldPairsIn(fs: seq<Field>, n1: Node, n2: Node, x: DualKey)
    ensures x in FieldPairs(fs, n1, n2) <==>
      exists k :: 0 <= k < |fs| && ReadField(fs[k], n1).Some? && ReadField(fs[k], n2).Some?
        && x == DualKey(ReadField(fs[k], n1).value, ReadField(fs[k], n2).value)
    decreases |fs|
  {
    if fs != [] {
      FieldPairsIn(fs[1..], n1, n2, x);
      if x in FieldPairs(fs[1..], n1, n2) {
        var k :| 0 <= k < |fs[1..]| && ReadField(fs[1..][k], n1).Some? && ReadField(fs[1..][k], n2).Some?
          && x == DualKey(ReadField(fs[1..][k], n1).value, ReadField(fs[1..][k], n2).value);
        assert fs[k + 1] == fs[1..][k];
      }
      forall k | 1 <= k < |fs|
        ensures fs[k] == fs[1..][k - 1]
      {
      }
    }
  }

  /** When every field reads on both sides there is one pair per field,
      in field order. */
  lemma {:induction false} FieldPairsAllRead(fs: seq<Field>, n1: Node, n2: Node)
    requires forall k :: 0 <= k < |fs| ==> ReadField(fs[k], n1).Some? && ReadField(fs[k], n2).Some?
    ensures |FieldPairs(fs, n1, n2)| == |fs|
    ensures forall k :: 0 <= k < |fs| ==>
      FieldPairs(fs, n1, n2)[k] == DualKey(ReadField(fs[k], n1).value, ReadField(fs[k], n2).value)
    decreases |fs|
  {
    if fs != [] {
      FieldPairsAllRead(fs[1..], n1, n2);
      assert forall k :: 1 <= k < |fs| ==> fs[k] == fs[1..][k - 1];
    }
  }

  /** Every popped pair of heap references ends up in `visited`. */
  lemma PoppedIsMarked(w: World, p: DualKey, rest: seq<DualKey>, visited: set<DualKey>, fuel: nat)
    requires ValidWorld(w) && PairOk(w, p)
    ensures visited + {p} <= Run(w, [p] + rest, visited, fuel).visited
  {
    assert ([p] + rest)[0] == p && ([p] + rest)[1..] == rest;
  }

  /** The cases in which popping the pair returns `false` at once. */
  ghost predicate Mismatch(w: World, p: DualKey)
    requires ValidWorld(w) && PairOk(w, p)
  {
    if p.key1.Null? || p.key2.Null? then p.key1 != p.key2
    else
      var n1, n2 := w.heap[p.key1.id], w.heap[p.key2.id];
      || n1.cls != n2.cls
      || ((n1.shape.ArrayShape? || n1.shape.ListShape? || n1.shape.SetShape?) && |Items(n1.shape)| != |Items(n2.shape)|)
      || (n1.shape.MapShape? && |Entries(n1.shape)| != |Entries(n2.shape)|)
  }

  /** Exactly one null, different classes, or containers of different
      sizes: the comparison is `false`, with the pair marked. */
  lemma MismatchIsUnequal(w: World, p: DualKey, rest: seq<DualKey>, visited: set<DualKey>, fuel: nat)
    requires ValidWorld(w) && PairOk(w, p) && Mismatch(w, p)
    ensures Run(w, [p] + rest, visited, fuel) == Comparison(Unequal, visited + {p})
  {
    assert ([p] + rest)[0] == p && ([p] + rest)[1..] == rest;
    assert Step(w, p, rest, visited, fuel) == Stop(Unequal, visited + {p}) by {
      if p.key1.Obj? && p.key2.Obj? && w.heap[p.key1.id].shape.SetShape? {
        var e1, e2 := Items(w.heap[p.key1.id].shape), Items(w.heap[p.key2.id].shape);
        assert w.heap[p.key1.id].cls != w.heap[p.key2.id].cls
          || Unordered(w, p.key1.id, p.key2.id, e1, e2, visited + {p}, fuel) == Comparison(Unequal, visited + {p});
      }
    }
  }

  /** Two nulls are no reason to return: the loop goes on with the rest. */
  lemma NullsGoOn(w: World, rest: seq<DualKey>, visited: set<DualKey>, fuel: nat)
    requires ValidWorld(w)
    ensures Run(w, [DualKey(Null, Null)] + rest, visited, fuel) == Run(w, rest, visited + {DualKey(Null, Null)}, fuel)
  {
    var p := DualKey(Null, Null);
    assert ([p] + rest)[0] == p && ([p] + rest)[1..] == rest;
  }

  /** Two sets of equal size but different deep hashes are unequal,
      without a single element probe. */
  lemma SetHashMismatch(w: World, p: DualKey, rest: seq<DualKey>, visited: set<DualKey>, fuel: nat)
    requires ValidWorld(w) && PairOk(w, p) && p.key1.Obj? && p.key2.Obj?
    requires w.heap[p.key1.id].cls == w.heap[p.key2.id].cls && w.heap[p.key1.id].shape.SetShape?
    requires DeepHash(w, p.key1) != DeepHash(w, p.key2)
    ensures Run(w, [p] + rest, visited, fuel) == Comparison(Unequal, visited + {p})
  {
    assert ([p] + rest)[0] == p && ([p] + rest)[1..] == rest;
    var e1, e2 := Items(w.heap[p.key1.id].shape), Items(w.heap[p.key2.id].shape);
    assert p.key1 == Obj(p.key1.id) && p.key2 == Obj(p.key2.id);
    assert Unordered(w, p.key1.id, p.key2.id, e1, e2, visited + {p}, fuel) == Comparison(Unequal, visited + {p});
    assert Step(w, p, rest, visited, fuel) == Stop(Unequal, visited + {p});
  }

  /** Two sets of one class: `compareUnordered` decides, and on `true`
      the loop goes on with the rest, keeping every pair its probes marked. */
  lemma SetsCompared(w: World, p: DualKey, rest: seq<DualKey>, visited: set<DualKey>, fuel: nat)
    requires ValidWorld(w) && PairOk(w, p) && p.key1.Obj? && p.key2.Obj?
    requires w.heap[p.key1.id].cls == w.heap[p.key2.id].cls && w.heap[p.key1.id].shape.SetShape?
    ensures var c := Unordered(w, p.key1.id, p.key2.id, Items(w.heap[p.key1.id].shape), Items(w.heap[p.key2.id].shape),
                               visited + {p}, fuel);
      Run(w, [p] + rest, visited, fuel) == if c.verdict == Equal then Run(w, rest, c.visited, fuel) else c
  {
    assert ([p] + rest)[0] == p && ([p] + rest)[1..] == rest;
  }

  /** A probe against candidate `j` that succeeds is the match, and the
      probe's marks are kept. */
  lemma ProbeAccepted(w: World, x: Ref, e2: seq<Ref>, j: nat, visited: set<DualKey>, fuel: nat)
    requires ValidWorld(w) && j < |e2| && fuel >= 1
    requires Run(w, [DualKey(x, e2[j])], visited, fuel - 1).verdict == Equal
    ensures FindMatch(w, x, e2, j, visited, fuel) == Search(Equal, Run(w, [DualKey(x, e2[j])], visited, fuel - 1).visited, j)
  {
  }

  /** A probe that fails moves on to the next candidate, and its marks
      are kept too. */
  lemma ProbeRejected(w: World, x: Ref, e2: seq<Ref>, j: nat, visited: set<DualKey>, fuel: nat)
    requires ValidWorld(w) && j < |e2| && fuel >= 1
    requires Run(w, [DualKey(x, e2[j])], visited, fuel - 1).verdict == Unequal
    ensures FindMatch(w, x, e2, j, visited, fuel) == FindMatch(w, x, e2, j + 1, Run(w, [DualKey(x, e2[j])], visited, fuel - 1).visited, fuel)
  {
  }

  /** With no candidate left the inner loop reports no match. */
  lemma CandidatesExhausted(w: World, x: Ref, e2: seq<Ref>, j: nat, visited: set<DualKey>, fuel: nat)
    requires ValidWorld(w) && j >= |e2|
    ensures FindMatch(w, x, e2, j, visited, fuel) == Search(Unequal, visited, j)
  {
  }

  /** A left element that finds a match lets the outer loop go on. */
  lemma ElementMatched(w: World, e1: seq<Ref>, i: nat, e2: seq<Ref>, visited: set<DualKey>, fuel: nat)
    requires ValidWorld(w) && i < |e1| && FindMatch(w, e1[i], e2, 0, visited, fuel).verdict == Equal
    ensures ContainsAll(w, e1, i, e2, visited, fuel) == ContainsAll(w, e1, i + 1, e2, FindMatch(w, e1[i], e2, 0, visited, fuel).visited, fuel)
  {
  }

  /** A left element without a match ends the comparison with `false`. */
  lemma ElementUnmatched(w: World, e1: seq<Ref>, i: nat, e2: seq<Ref>, visited: set<DualKey>, fuel: nat)
    requires ValidWorld(w) && i < |e1| && FindMatch(w, e1[i], e2, 0, visited, fuel).verdict == Unequal
    ensures ContainsAll(w, e1, i, e2, visited, fuel) == Comparison(Unequal, FindMatch(w, e1[i], e2, 0, visited, fuel).visited)
  {
  }

  /** Two maps of one class and of equal size go through the entry
      matching; its value pairs are pushed on top of the rest. */
  lemma MapsCompared(w: World, p: DualKey, rest: seq<DualKey>, visited: set<DualKey>, fuel: nat)
    requires ValidWorld(w) && PairOk(w, p) && p.key1.Obj? && p.key2.Obj?
    requires w.heap[p.key1.id].cls == w.heap[p.key2.id].cls && w.heap[p.key1.id].shape.MapShape?
    requires |Entries(w.heap[p.key1.id].shape)| == |Entries(w.heap[p.key2.id].shape)|
    ensures var m := MatchEntries(w, Entries(w.heap[p.key1.id].shape), 0, Entries(w.heap[p.key2.id].shape),
                                  visited + {p}, fuel, rest);
      Run(w, [p] + rest, visited, fuel) == if m.verdict == Equal then Run(w, m.stack, m.visited, fuel) else Comparison(m.verdict, m.visited)
  {
    assert ([p] + rest)[0] == p && ([p] + rest)[1..] == rest;
  }

  /** A left key matched by the first accepting right key: the pair of
      the two entries' values is pushed unless already visited. */
  lemma EntryMatched(w: World, es1: seq<Entry>, i: nat, es2: seq<Entry>, visited: set<DualKey>, fuel: nat, stack: seq<DualKey>)
    requires ValidWorld(w) && i < |es1| && FindMatch(w, es1[i].key, KeysOf(es2), 0, visited, fuel).verdict == Equal
    ensures var f := FindMatch(w, es1[i].key, KeysOf(es2), 0, visited, fuel);
      var dk := DualKey(es1[i].value, es2[f.at].value);
      && f.at < |es2|
      && MatchEntries(w, es1, i, es2, visited, fuel, stack)
         == MatchEntries(w, es1, i + 1, es2, f.visited, fuel, if dk in f.visited then stack else [dk] + stack)
  {
  }

  /** A left key that no right key accepts ends the map branch with
      `false`. */
  lemma EntryUnmatched(w: World, es1: seq<Entry>, i: nat, es2: seq<Entry>, visited: set<DualKey>, fuel: nat, stack: seq<DualKey>)
    requires ValidWorld(w) && i < |es1| && FindMatch(w, es1[i].key, KeysOf(es2), 0, visited, fuel).verdict == Unequal
    ensures MatchEntries(w, es1, i, es2, visited, fuel, stack)
         == Matching(Unequal, FindMatch(w, es1[i].key, KeysOf(es2), 0, visited, fuel).visited, stack)
  {
  }

  /** For a class with a custom `equals` its verdict decides the pair and
      nothing is pushed. */
  lemma CustomEqualsDecides(w: World, p: DualKey, rest: seq<DualKey>, visited: set<DualKey>, fuel: nat)
    requires ValidWorld(w) && PairOk(w, p) && p.key1.Obj? && p.key2.Obj?
    requires w.heap[p.key1.id].cls == w.heap[p.key2.id].cls && w.heap[p.key1.id].shape.Plain?
    requires CustomEquals(w.table, w.heap[p.key1.id].cls)
    ensures Run(w, [p] + rest, visited, fuel) ==
      if w.equals(p.key1.id, p.key2.id) then Run(w, rest, visited + {p}, fuel) else Comparison(Unequal, visited + {p})
  {
    assert ([p] + rest)[0] == p && ([p] + rest)[1..] == rest;
  }

  /** Otherwise the unvisited field pairs are pushed in field order (so
      the last field is compared first) and the loop goes on. */
  lemma FieldsCompared(w: World, p: DualKey, rest: seq<DualKey>, visited: set<DualKey>, fuel: nat)
    requires ValidWorld(w) && PairOk(w, p) && p.key1.Obj? && p.key2.Obj?
    requires w.heap[p.key1.id].cls == w.heap[p.key2.id].cls && w.heap[p.key1.id].shape.Plain?
    requires !CustomEquals(w.table, w.heap[p.key1.id].cls)
    ensures var n1, n2 := w.heap[p.key1.id], w.heap[p.key2.id];
      Run(w, [p] + rest, visited, fuel) ==
      Run(w, Reverse(Unvisited(FieldPairs(DeepFields(w.table, n1.cls), n1, n2), visited + {p})) + rest, visited + {p}, fuel)
  {
    var n1, n2 := w.heap[p.key1.id], w.heap[p.key2.id];
    var fs := FieldPairs(DeepFields(w.table, n1.cls), n1, n2);
    assert ([p] + rest)[0] == p && ([p] + rest)[1..] == rest;
    FieldsStep(w, p, rest, visited, fuel);
    PushFreshIs(fs, visited + {p}, rest);
  }

  /** The turn on such a pair pushes its field pairs. */
  lemma FieldsStep(w: World, p: DualKey, rest: seq<DualKey>, visited: set<DualKey>, fuel: nat)
    requires ValidWorld(w) && PairOk(w, p) && p.key1.Obj? && p.key2.Obj?
    requires w.heap[p.key1.id].cls == w.heap[p.key2.id].cls && w.heap[p.key1.id].shape.Plain?
    requires !CustomEquals(w.table, w.heap[p.key1.id].cls)
    ensures var n1, n2 := w.heap[p.key1.id], w.heap[p.key2.id];
      Step(w, p, rest, visited, fuel) ==
      Go(PushFresh(FieldPairs(DeepFields(w.table, n1.cls), n1, n2), visited + {p}, rest), visited + {p})
  {
  }

  /** Arrays and collections of equal size: the unvisited element pairs
      are pushed in order and the loop goes on. */
  lemma ElementsCompared(w: World, p: DualKey, rest: seq<DualKey>, visited: set<DualKey>, fuel: nat)
    requires ValidWorld(w) && PairOk(w, p) && p.key1.Obj? && p.key2.Obj?
    requires w.heap[p.key1.id].cls == w.heap[p.key2.id].cls
    requires w.heap[p.key1.id].shape.ArrayShape? || w.heap[p.key1.id].shape.ListShape?
    requires |Items(w.heap[p.key1.id].shape)| == |Items(w.heap[p.key2.id].shape)|
    ensures var e1, e2 := Items(w.heap[p.key1.id].shape), Items(w.heap[p.key2.id].shape);
      Run(w, [p] + rest, visited, fuel) == Run(w, Reverse(Unvisited(Zip(e1, e2), visited + {p})) + rest, visited + {p}, fuel)
  {
    var e1, e2 := Items(w.heap[p.key1.id].shape), Items(w.heap[p.key2.id].shape);
    assert ([p] + rest)[0] == p && ([p] + rest)[1..] == rest;
    PushFreshIs(Zip(e1, e2), visited + {p}, rest);
  }

  // ------------------------------------------------------------ the implementation

  /** Every pair on the stack is one of the heap. */
  ghost predicate Closed(w: World, s: seq<DualKey>) {
    forall k :: 0 <= k < |s| ==> PairOk(w, s[k])
  }

  /** Every reference in the sequence is null or an object of the heap. */
  ghost predicate RefsOk(w: World, s: seq<Ref>) {
    forall k :: 0 <= k < |s| ==> RefOk(w.heap, s[k])
  }

  ghost predicate EntriesOk(w: World, es: seq<Entry>) {
    forall k :: 0 <= k < |es| ==> RefOk(w.heap, es[k].key) && RefOk(w.heap, es[k].value)
  }

  lemma KeysOk(w: World, es: seq<Entry>)
    requires EntriesOk(w, es)
    ensures RefsOk(w, KeysOf(es))
  {
    forall k | 0 <= k < |KeysOf(es)|
      ensures RefOk(w.heap, KeysOf(es)[k])
    {
      KeyAt(es, k);
    }
  }

  lemma {:induction false} KeyAt(es: seq<Entry>, k: int)
    requires 0 <= k < |es|
    ensures |KeysOf(es)| == |es| && KeysOf(es)[k] == es[k].key
    decreases k
  {
    if k > 0 {
      KeyAt(es[1..], k - 1);
    }
  }

  /** `deepEquals(a, b, visited)`: the stack starts with the pair
      `(a, b)` whatever `visited` holds, and the loop runs until the stack
      is empty or a turn returns.  The caller's `visited` set is handed
      back updated. */
  method CompareFrom(cache: ReflectionCache, w: World, a: Ref, b: Ref, visited: set<DualKey>, fuel: nat)
      returns (verdict: Verdict, visited': set<DualKey>)
    requires cache.Valid() && cache.table == w.table && ValidWorld(w)
    requires RefOk(w.heap, a) && RefOk(w.heap, b)
    modifies cache
    ensures cache.Valid() && cache.Grew()
    ensures Comparison(verdict, visited') == Run(w, [DualKey(a, b)], visited, fuel)
    decreases fuel, 4
  {
    var stack := [DualKey(a, b)];
    visited' := visited;
    while stack != []
      invariant cache.Valid() && cache.Grew() && Closed(w, stack)
      invariant Run(w, stack, visited', fuel) == Run(w, [DualKey(a, b)], visited, fuel)
      decreases Universe(w) - visited', Count(stack, visited')
    {
      var t := TakeTurn(cache, w, stack[0], stack[1..], visited', fuel);
      if t.Stop? {
        return t.verdict, t.visited;
      }
      TurnMeasure(w, stack, visited', t);
      stack, visited' := t.stack, t.visited;
    }
    verdict := Equal;
  }

  /** `deepEquals(a, b)`: a fresh `visited` set. */
  method CompareGraphs(cache: ReflectionCache, w: World, a: Ref, b: Ref, fuel: nat) returns (verdict: Verdict)
    requires cache.Valid() && cache.table == w.table && ValidWorld(w)
    requires RefOk(w.heap, a) && RefOk(w.heap, b)
    modifies cache
    ensures cache.Valid() && cache.Grew()
    ensures verdict == DeepEquals(w, a, b, fuel).verdict
  {
    var visited;
    verdict, visited := CompareFrom(cache, w, a, b, {}, fuel);
  }

  /** The body of the loop on the popped pair `p`: a `return` (Stop) or
      a `continue` with the new stack (Go). */
  method TakeTurn(cache: ReflectionCache, w: World, p: DualKey, rest: seq<DualKey>, visited: set<DualKey>, fuel: nat)
      returns (t: Turn)
    requires cache.Valid() && cache.table == w.table && ValidWorld(w)
    requires PairOk(w, p) && Closed(w, rest)
    modifies cache
    ensures cache.Valid() && cache.Grew()
    ensures t == Step(w, p, rest, visited, fuel)
    ensures t.Go? ==> Closed(w, t.stack)
    decreases fuel, 3
  {
    var v := visited + {p};
    if p.key1.Null? || p.key2.Null? {
      if p.key1 != p.key2 {
        return Stop(Unequal, v);
      }
      return Go(rest, v);
    }
    var n1, n2 := w.heap[p.key1.id], w.heap[p.key2.id];
    if n1.cls != n2.cls {
      return Stop(Unequal, v);
    }
    match n1.shape
    case ArrayShape(e1) =>
      var e2 := Items(n2.shape);
      if |e1| != |e2| {
        return Stop(Unequal, v);
      }
      ItemsOk(w, n2.shape);
      var s := PushElementPairs(w, e1, e2, v, rest);
      return Go(s, v);
    case SetShape(e1) =>
      ItemsOk(w, n2.shape);
      var verdict, v' := CompareUnordered(cache, w, p.key1.id, p.key2.id, e1, Items(n2.shape), v, fuel);
      if verdict == Equal {
        return Go(rest, v');
      }
      return Stop(verdict, v');
    case ListShape(e1) =>
      var e2 := Items(n2.shape);
      if |e1| != |e2| {
        return Stop(Unequal, v);
      }
      ItemsOk(w, n2.shape);
      var s := PushElementPairs(w, e1, e2, v, rest);
      return Go(s, v);
    case MapShape(es1) =>
      var es2 := Entries(n2.shape);
      if |es1| != |es2| {
        return Stop(Unequal, v);
      }
      var verdict, v', s := MatchMapEntries(cache, w, es1, es2, v, fuel, rest);
      if verdict == Equal {
        return Go(s, v');
      }
      return Stop(verdict, v');
    case Plain(_) =>
      var custom := cache.HasCustomEquals(n1.cls);
      if custom {
        if w.equals(p.key1.id, p.key2.id) {
          return Go(rest, v);
        }
        return Stop(Unequal, v);
      }
      var fields := cache.GetDeepDeclaredFields(n1.cls);
      var s := PushFieldPairs(w, fields, n1, n2, v, rest);
      return Go(s, v);
  }

  lemma ItemsOk(w: World, s: Shape)
    requires ShapeClosed(w.heap, s)
    ensures RefsOk(w, Items(s))
  {
  }

  /** The element loops of the array and collection branches: each pair
      of elements at the same position is pushed unless already visited. */
  method PushElementPairs(w: World, e1: seq<Ref>, e2: seq<Ref>, v: set<DualKey>, rest: seq<DualKey>)
      returns (r: seq<DualKey>)
    requires |e1| == |e2| && RefsOk(w, e1) && RefsOk(w, e2) && Closed(w, rest)
    ensures r == PushFresh(Zip(e1, e2), v, rest)
    ensures Closed(w, r)
  {
    r := rest;
    var i := 0;
    assert e1[i..] == e1 && e2[i..] == e2;
    while i < |e1|
      invariant i <= |e1| && Closed(w, r)
      invariant PushFresh(Zip(e1[i..], e2[i..]), v, r) == PushFresh(Zip(e1, e2), v, rest)
    {
      var dk := DualKey(e1[i], e2[i]);
      assert Zip(e1[i..], e2[i..]) == [dk] + Zip(e1[i + 1..], e2[i + 1..]) by {
        assert e1[i..][1..] == e1[i + 1..] && e2[i..][1..] == e2[i + 1..];
      }
      if dk !in v {
        r := [dk] + r;
      }
      i := i + 1;
    }
  }

  /** The field loop: `(field.get(a), field.get(b))` is pushed unless
      already visited; a field whose read throws is skipped. */
  method PushFieldPairs(w: World, fields: seq<Field>, n1: Node, n2: Node, v: set<DualKey>, rest: seq<DualKey>)
      returns (r: seq<DualKey>)
    requires ShapeClosed(w.heap, n1.shape) && ShapeClosed(w.heap, n2.shape) && Closed(w, rest)
    ensures r == PushFresh(FieldPairs(fields, n1, n2), v, rest)
    ensures Closed(w, r)
  {
    r := rest;
    var i := 0;
    assert fields[i..] == fields;
    while i < |fields|
      invariant i <= |fields| && Closed(w, r)
      invariant PushFresh(FieldPairs(fields[i..], n1, n2), v, r) == PushFresh(FieldPairs(fields, n1, n2), v, rest)
    {
      var r1, r2 := ReadField(fields[i], n1), ReadField(fields[i], n2);
      assert FieldPairs(fields[i..], n1, n2)
          == (if r1.Some? && r2.Some? then [DualKey(r1.value, r2.value)] else []) + FieldPairs(fields[i + 1..], n1, n2) by {
        assert fields[i..][1..] == fields[i + 1..];
      }
      if r1.Some? && r2.Some? {
        ReadClosed(w.heap, fields[i], n1);
        ReadClosed(w.heap, fields[i], n2);
        var dk := DualKey(r1.value, r2.value);
        assert ([dk] + FieldPairs(fields[i + 1..], n1, n2))[1..] == FieldPairs(fields[i + 1..], n1, n2);
        if dk !in v {
          r := [dk] + r;
        }
      } else {
        assert [] + FieldPairs(fields[i + 1..], n1, n2) == FieldPairs(fields[i + 1..], n1, n2);
      }
      i := i + 1;
    }
  }

  /** `compareUnordered(set1, set2, visited)`. */
  method CompareUnordered(cache: ReflectionCache, w: World, s1: ObjId, s2: ObjId, e1: seq<Ref>, e2: seq<Ref>,
                          visited: set<DualKey>, fuel: nat)
      returns (verdict: Verdict, visited': set<DualKey>)
    requires cache.Valid() && cache.table == w.table && ValidWorld(w)
    requires s1 in w.heap && s2 in w.heap && RefsOk(w, e1) && RefsOk(w, e2)
    modifies cache
    ensures cache.Valid() && cache.Grew()
    ensures Comparison(verdict, visited') == Unordered(w, s1, s2, e1, e2, visited, fuel)
    decreases fuel, 2
  {
    if |e1| != |e2| {
      return Unequal, visited;
    }
    var h1 := DeepHashCode(cache, w, Obj(s1));
    var h2 := DeepHashCode(cache, w, Obj(s2));
    if h1 != h2 {
      return Unequal, visited;
    }
    visited' := visited;
    var i := 0;
    while i < |e1|
      invariant cache.Valid() && cache.Grew() && i <= |e1|
      invariant ContainsAll(w, e1, i, e2, visited', fuel) == ContainsAll(w, e1, 0, e2, visited, fuel)
    {
      var at;
      verdict, visited', at := FindFirstMatch(cache, w, e1[i], e2, visited', fuel);
      if verdict != Equal {
        return;
      }
      i := i + 1;
    }
    verdict := Equal;
  }

  /** The entry loops of the map branch: each left key is matched by a
      nested `deepEquals` against the right keys in order, and the pair
      of the two values is pushed unless already visited. */
  method MatchMapEntries(cache: ReflectionCache, w: World, es1: seq<Entry>, es2: seq<Entry>,
                         visited: set<DualKey>, fuel: nat, rest: seq<DualKey>)
      returns (verdict: Verdict, visited': set<DualKey>, stack: seq<DualKey>)
    requires cache.Valid() && cache.table == w.table && ValidWorld(w)
    requires EntriesOk(w, es1) && EntriesOk(w, es2) && Closed(w, rest)
    modifies cache
    ensures cache.Valid() && cache.Grew() && Closed(w, stack)
    ensures Matching(verdict, visited', stack) == MatchEntries(w, es1, 0, es2, visited, fuel, rest)
    decreases fuel, 1
  {
    var keys2 := KeysOf(es2);
    KeysOk(w, es2);
    visited', stack := visited, rest;
    var i := 0;
    while i < |es1|
      invariant cache.Valid() && cache.Grew() && i <= |es1| && Closed(w, stack)
      invariant MatchEntries(w, es1, i, es2, visited', fuel, stack) == MatchEntries(w, es1, 0, es2, visited, fuel, rest)
    {
      var at;
      verdict, visited', at := FindFirstMatch(cache, w, es1[i].key, keys2, visited', fuel);
      if verdict != Equal {
        return;
      }
      var dk := DualKey(es1[i].value, es2[at].value);
      if dk !in visited' {
        stack := [dk] + stack;
      }
      i := i + 1;
    }
    verdict := Equal;
  }

  /** The inner search loop of both: the first candidate that a nested
      `deepEquals(x, candidate, visited)` accepts. */
  method FindFirstMatch(cache: ReflectionCache, w: World, x: Ref, e2: seq<Ref>, visited: set<DualKey>, fuel: nat)
      returns (verdict: Verdict, visited': set<DualKey>, at: nat)
    requires cache.Valid() && cache.table == w.table && ValidWorld(w)
    requires RefOk(w.heap, x) && RefsOk(w, e2)
    modifies cache
    ensures cache.Valid() && cache.Grew()
    ensures Search(verdict, visited', at) == FindMatch(w, x, e2, 0, visited, fuel)
    decreases fuel, 0
  {
    visited' := visited;
    var j := 0;
    while j < |e2|
      invariant cache.Valid() && cache.Grew() && j <= |e2|
      invariant FindMatch(w, x, e2, j, visited', fuel) == FindMatch(w, x, e2, 0, visited, fuel)
    {
      if fuel == 0 {
        return OutOfFuel, visited', j;
      }
      verdict, visited' := CompareFrom(cache, w, x, e2[j], visited', fuel - 1);
      if verdict != Unequal {
        return verdict, visited', j;
      }
      j := j + 1;
    }
    return Unequal, visited', j;
  }
}
