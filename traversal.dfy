/** The work-list loop of `deepHashCode`, stated once over an abstract
    graph: pop a reference; pass over it if it is null or already in the
    `visited` `HashSet`; otherwise add it, add its weight to the running
    total and push its children on top of the stack. */
module WorkList {
  import opened ObjectGraph

  /** What the loop sees of the heap: the children each node pushes,
      what visiting each node adds to the total, and the pairs `(o, k)`
      for which `HashSet` finds `o` present because of a different
      member `k`. */
  datatype Graph = Graph(
    children: map<ObjId, seq<Ref>>,
    weight: map<ObjId, int>,
    equal: set<(ObjId, ObjId)>)

  function Nodes(g: Graph): set<ObjId> {
    g.children.Keys
  }

  function Children(g: Graph, o: ObjId): seq<Ref> {
    if o in g.children then g.children[o] else []
  }

  function Weight(g: Graph, o: ObjId): int {
    if o in g.weight then g.weight[o] else 0
  }

  predicate Eq(g: Graph, o: ObjId, k: ObjId) {
    (o, k) in g.equal
  }

  /** `visited.contains(o)`: `o` itself or a member equal to it. */
  predicate Present(g: Graph, v: set<ObjId>, o: ObjId) {
    o in v || exists k {:trigger Eq(g, o, k)} :: k in v && Eq(g, o, k)
  }

  /** Whether the loop passes over reference `o`.  (A reference outside
      the graph does not occur in a closed heap; passing over it keeps
      the loop free of closure preconditions.) */
  predicate Skipped(g: Graph, v: set<ObjId>, o: Ref) {
    o.Null? || o.id !in Nodes(g) || Present(g, v, o.id)
  }

  /** Where the loop ends: the total and the final visited set. */
  datatype Outcome = Outcome(total: int, visited: set<ObjId>)

  /** The loop from a given stack (top first), visited set and total. */
  ghost function Run(g: Graph, stack: seq<Ref>, visited: set<ObjId>, acc: int): (r: Outcome)
    requires visited <= Nodes(g)
    ensures r.visited <= Nodes(g)
    decreases Nodes(g) - visited, |stack|
  {
    if stack == [] then Outcome(acc, visited)
    else if Skipped(g, visited, stack[0]) then Run(g, stack[1..], visited, acc)
    else
      var o := stack[0].id;
      Run(g, Children(g, o) + stack[1..], visited + {o}, acc + Weight(g, o))
  }

  /** One turn of the loop on a top that is passed over. */
  lemma RunSkip(g: Graph, stack: seq<Ref>, visited: set<ObjId>, acc: int)
    requires visited <= Nodes(g) && stack != [] && Skipped(g, visited, stack[0])
    ensures Run(g, stack, visited, acc) == Run(g, stack[1..], visited, acc)
  {
  }

  /** One turn of the loop on a top that is visited. */
  lemma RunVisit(g: Graph, stack: seq<Ref>, visited: set<ObjId>, acc: int)
    requires visited <= Nodes(g) && stack != [] && !Skipped(g, visited, stack[0])
    ensures stack[0].id in Nodes(g) && stack[0].id !in visited
    ensures visited + {stack[0].id} <= Nodes(g)
    ensures Run(g, stack, visited, acc)
         == Run(g, Children(g, stack[0].id) + stack[1..], visited + {stack[0].id},
                acc + Weight(g, stack[0].id))
  {
  }

  /** `RunVisit` with the state after the visit given by name. */
  lemma RunVisitTo(g: Graph, stack: seq<Ref>, visited: set<ObjId>, acc: int,
                   stack': seq<Ref>, visited': set<ObjId>, acc': int)
    requires visited <= Nodes(g) && stack != [] && !Skipped(g, visited, stack[0])
    requires stack' == Children(g, stack[0].id) + stack[1..]
    requires visited' == visited + {stack[0].id} && acc' == acc + Weight(g, stack[0].id)
    ensures visited' <= Nodes(g)
    ensures Run(g, stack', visited', acc') == Run(g, stack, visited, acc)
  {
    RunVisit(g, stack, visited, acc);
  }

  // ------------------------------------------------------------ the total

  /** The sum of the weights of a set of nodes. */
  ghost function Sum(g: Graph, s: set<ObjId>): int
    decreases |s|
  {
    if s == {} then 0
    else
      var o :| o in s;
      Weight(g, o) + Sum(g, s - {o})
  }

  lemma {:induction false} SumRemove(g: Graph, s: set<ObjId>, y: ObjId)
    requires y in s
    ensures Sum(g, s) == Weight(g, y) + Sum(g, s - {y})
    decreases |s|
  {
    var x :| x in s && Sum(g, s) == Weight(g, x) + Sum(g, s - {x});
    if x != y {
      SumRemove(g, s - {x}, y);
      SumRemove(g, s - {y}, x);
      assert s - {x} - {y} == s - {y} - {x};
    }
  }

  /** Nodes of weight 0 add nothing. */
  lemma {:induction false} SumOfZeros(g: Graph, s: set<ObjId>)
    requires forall o :: o in s ==> Weight(g, o) == 0
    ensures Sum(g, s) == 0
    decreases |s|
  {
    if s != {} {
      var o :| o in s;
      SumRemove(g, s, o);
      SumOfZeros(g, s - {o});
    }
  }

  /** The final total is the starting total plus the weights of the
      nodes the loop newly visits. */
  lemma {:induction false} RunSum(g: Graph, stack: seq<Ref>, visited: set<ObjId>, acc: int, r: Outcome)
    requires visited <= Nodes(g) && r == Run(g, stack, visited, acc)
    ensures r.total == acc + Sum(g, r.visited) - Sum(g, visited)
    decreases Nodes(g) - visited, |stack|, 1
  {
    if stack == [] {
    } else if Skipped(g, visited, stack[0]) {
      RunSkip(g, stack, visited, acc);
      RunSum(g, stack[1..], visited, acc, r);
    } else {
      RunSumVisit(g, stack, visited, acc, r);
    }
  }

  lemma {:induction false} RunSumVisit(g: Graph, stack: seq<Ref>, visited: set<ObjId>, acc: int, r: Outcome)
    requires visited <= Nodes(g) && stack != [] && !Skipped(g, visited, stack[0])
    requires r == Run(g, stack, visited, acc)
    ensures r.total == acc + Sum(g, r.visited) - Sum(g, visited)
    decreases Nodes(g) - visited, |stack|, 0
  {
    var o := stack[0].id;
    RunVisit(g, stack, visited, acc);
    RunSum(g, Children(g, o) + stack[1..], visited + {o}, acc + Weight(g, o), r);
    SumRemove(g, visited + {o}, o);
    assert (visited + {o}) - {o} == visited;
  }

  // ------------------------------------------------------------ what gets visited

  /** The visited set only grows. */
  lemma {:induction false} RunGrows(g: Graph, stack: seq<Ref>, visited: set<ObjId>, acc: int, r: Outcome)
    requires visited <= Nodes(g) && r == Run(g, stack, visited, acc)
    ensures visited <= r.visited
    decreases Nodes(g) - visited, |stack|, 1
  {
    if stack == [] {
    } else if Skipped(g, visited, stack[0]) {
      RunSkip(g, stack, visited, acc);
      RunGrows(g, stack[1..], visited, acc, r);
    } else {
      RunGrowsVisit(g, stack, visited, acc, r);
    }
  }

  lemma {:induction false} RunGrowsVisit(g: Graph, stack: seq<Ref>, visited: set<ObjId>, acc: int, r: Outcome)
    requires visited <= Nodes(g) && stack != [] && !Skipped(g, visited, stack[0])
    requires r == Run(g, stack, visited, acc)
    ensures visited <= r.visited
    decreases Nodes(g) - visited, |stack|, 0
  {
    var o := stack[0].id;
    RunVisit(g, stack, visited, acc);
    RunGrows(g, Children(g, o) + stack[1..], visited + {o}, acc + Weight(g, o), r);
  }

  /** Every node among `s` is present in `v`. */
  ghost predicate Covered(g: Graph, v: set<ObjId>, s: seq<Ref>) {
    forall k :: 0 <= k < |s| && s[k].Obj? && s[k].id in Nodes(g) ==> Present(g, v, s[k].id)
  }

  lemma CoveredAppend(g: Graph, v: set<ObjId>, a: seq<Ref>, b: seq<Ref>)
    ensures Covered(g, v, a + b) <==> Covered(g, v, a) && Covered(g, v, b)
  {
    if Covered(g, v, a) && Covered(g, v, b) {
      forall k | 0 <= k < |a + b| && (a + b)[k].Obj? && (a + b)[k].id in Nodes(g)
        ensures Present(g, v, (a + b)[k].id)
      {
        if k >= |a| {
          assert (a + b)[k] == b[k - |a|];
        }
      }
    }
    if Covered(g, v, a + b) {
      forall k | 0 <= k < |a| && a[k].Obj? && a[k].id in Nodes(g)
        ensures Present(g, v, a[k].id)
      {
        assert (a + b)[k] == a[k];
      }
      forall k | 0 <= k < |b| && b[k].Obj? && b[k].id in Nodes(g)
        ensures Present(g, v, b[k].id)
      {
        assert (a + b)[|a| + k] == b[k];
      }
    }
  }

  /** A stack whose tail is covered is covered once its top is. */
  lemma CoveredCons(g: Graph, v: set<ObjId>, s: seq<Ref>)
    requires s != [] && Covered(g, v, s[1..])
    requires s[0].Obj? ==> s[0].id in v
    ensures Covered(g, v, s)
  {
    forall k | 0 <= k < |s| && s[k].Obj? && s[k].id in Nodes(g)
      ensures Present(g, v, s[k].id)
    {
      if k > 0 {
        assert s[k] == s[1..][k - 1];
      }
    }
  }

  /** A top that was passed over stays covered as `visited` grows. */
  lemma CoveredSkip(g: Graph, v: set<ObjId>, v': set<ObjId>, s: seq<Ref>)
    requires v <= v' && s != [] && Skipped(g, v, s[0]) && Covered(g, v', s[1..])
    ensures Covered(g, v', s)
  {
    forall k | 0 <= k < |s| && s[k].Obj? && s[k].id in Nodes(g)
      ensures Present(g, v', s[k].id)
    {
      if k > 0 {
        assert s[k] == s[1..][k - 1];
      } else if s[0].id !in v {
        var j :| j in v && Eq(g, s[0].id, j);
      }
    }
  }

  /** When the loop ends, every node on the stack it started from is
      present in the final `visited`. */
  lemma {:induction false} RunCovers(g: Graph, stack: seq<Ref>, visited: set<ObjId>, acc: int, r: Outcome)
    requires visited <= Nodes(g) && r == Run(g, stack, visited, acc)
    ensures Covered(g, r.visited, stack)
    decreases Nodes(g) - visited, |stack|, 1
  {
    if stack == [] {
    } else if Skipped(g, visited, stack[0]) {
      RunSkip(g, stack, visited, acc);
      RunCovers(g, stack[1..], visited, acc, r);
      RunGrows(g, stack[1..], visited, acc, r);
      CoveredSkip(g, visited, r.visited, stack);
    } else {
      RunCoversVisit(g, stack, visited, acc, r);
    }
  }

  lemma {:induction false} RunCoversVisit(g: Graph, stack: seq<Ref>, visited: set<ObjId>, acc: int, r: Outcome)
    requires visited <= Nodes(g) && stack != [] && !Skipped(g, visited, stack[0])
    requires r == Run(g, stack, visited, acc)
    ensures Covered(g, r.visited, stack)
    decreases Nodes(g) - visited, |stack|, 0
  {
    var o := stack[0].id;
    RunVisit(g, stack, visited, acc);
    var ch := Children(g, o);
    RunCovers(g, ch + stack[1..], visited + {o}, acc + Weight(g, o), r);
    RunGrows(g, ch + stack[1..], visited + {o}, acc + Weight(g, o), r);
    CoveredAppend(g, r.visited, ch, stack[1..]);
    CoveredCons(g, r.visited, stack);
  }

  /** The children of every node the loop newly visits are present in
      the final `visited`. */
  lemma {:induction false} RunChildren(g: Graph, stack: seq<Ref>, visited: set<ObjId>, acc: int, r: Outcome)
    requires visited <= Nodes(g) && r == Run(g, stack, visited, acc)
    ensures forall p :: p in r.visited && p !in visited ==> Covered(g, r.visited, Children(g, p))
    decreases Nodes(g) - visited, |stack|, 1
  {
    if stack == [] {
    } else if Skipped(g, visited, stack[0]) {
      RunSkip(g, stack, visited, acc);
      RunChildren(g, stack[1..], visited, acc, r);
    } else {
      RunChildrenVisit(g, stack, visited, acc, r);
    }
  }

  lemma {:induction false} RunChildrenVisit(g: Graph, stack: seq<Ref>, visited: set<ObjId>, acc: int, r: Outcome)
    requires visited <= Nodes(g) && stack != [] && !Skipped(g, visited, stack[0])
    requires r == Run(g, stack, visited, acc)
    ensures forall p :: p in r.visited && p !in visited ==> Covered(g, r.visited, Children(g, p))
    decreases Nodes(g) - visited, |stack|, 0
  {
    var o := stack[0].id;
    RunVisit(g, stack, visited, acc);
    var ch := Children(g, o);
    RunChildren(g, ch + stack[1..], visited + {o}, acc + Weight(g, o), r);
    RunCovers(g, ch + stack[1..], visited + {o}, acc + Weight(g, o), r);
    CoveredAppend(g, r.visited, ch, stack[1..]);
  }

  /** `v` holds, up to `equal`, every child of every member. */
  ghost predicate PresentClosed(g: Graph, v: set<ObjId>) {
    forall p :: p in v ==> Covered(g, v, Children(g, p))
  }

  /** Every node among `s` is in the set `x`. */
  ghost predicate InSet(x: set<ObjId>, s: seq<Ref>) {
    forall k :: 0 <= k < |s| && s[k].Obj? ==> s[k].id in x
  }

  lemma InSetAppend(x: set<ObjId>, a: seq<Ref>, b: seq<Ref>)
    ensures InSet(x, a + b) <==> InSet(x, a) && InSet(x, b)
  {
    if InSet(x, a + b) {
      forall k | 0 <= k < |a| && a[k].Obj? ensures a[k].id in x {
        assert (a + b)[k] == a[k];
      }
      forall k | 0 <= k < |b| && b[k].Obj? ensures b[k].id in x {
        assert (a + b)[|a| + k] == b[k];
      }
    }
    if InSet(x, a) && InSet(x, b) {
      forall k | 0 <= k < |a + b| && (a + b)[k].Obj? ensures (a + b)[k].id in x {
        if k >= |a| {
          assert (a + b)[k] == b[k - |a|];
        }
      }
    }
  }

  lemma InSetTail(x: set<ObjId>, s: seq<Ref>)
    requires s != [] && InSet(x, s)
    ensures InSet(x, s[1..]) && (s[0].Obj? ==> s[0].id in x)
  {
    forall k | 0 <= k < |s[1..]| && s[1..][k].Obj? ensures s[1..][k].id in x {
      assert s[1..][k] == s[k + 1];
    }
  }

  /** `s` holds, by identity, every child of every member. */
  ghost predicate IdClosed(g: Graph, s: set<ObjId>) {
    forall p :: p in s ==> InSet(s, Children(g, p))
  }

  /** The loop visits nothing outside a set that is closed under
      children and holds what it started with: it visits only nodes
      reachable from its stack. */
  lemma {:induction false} RunLeast(g: Graph, stack: seq<Ref>, visited: set<ObjId>, acc: int, s: set<ObjId>, r: Outcome)
    requires visited <= Nodes(g) && r == Run(g, stack, visited, acc)
    requires IdClosed(g, s) && visited <= s && InSet(s, stack)
    ensures r.visited <= s
    decreases Nodes(g) - visited, |stack|, 1
  {
    if stack == [] {
    } else if Skipped(g, visited, stack[0]) {
      RunSkip(g, stack, visited, acc);
      InSetTail(s, stack);
      RunLeast(g, stack[1..], visited, acc, s, r);
    } else {
      RunLeastVisit(g, stack, visited, acc, s, r);
    }
  }

  lemma {:induction false} RunLeastVisit(g: Graph, stack: seq<Ref>, visited: set<ObjId>, acc: int, s: set<ObjId>, r: Outcome)
    requires visited <= Nodes(g) && stack != [] && !Skipped(g, visited, stack[0])
    requires r == Run(g, stack, visited, acc)
    requires IdClosed(g, s) && visited <= s && InSet(s, stack)
    ensures r.visited <= s
    decreases Nodes(g) - visited, |stack|, 0
  {
    var o := stack[0].id;
    RunVisit(g, stack, visited, acc);
    var ch := Children(g, o);
    InSetTail(s, stack);
    InSetAppend(s, ch, stack[1..]);
    RunLeast(g, ch + stack[1..], visited + {o}, acc + Weight(g, o), s, r);
  }

  // ------------------------------------------------------------ from one root

  /** From a single root, the visited set holds the root, lies within
      every children-closed set holding the root, and is closed under
      children up to `equal`; the total is the sum of its weights. */
  lemma RunFromRoot(g: Graph, root: Ref)
    ensures var r := Run(g, [root], {}, 0);
      && r.total == Sum(g, r.visited)
      && PresentClosed(g, r.visited)
      && (root.Obj? && root.id in Nodes(g) ==> Present(g, r.visited, root.id))
  {
    var r := Run(g, [root], {}, 0);
    RunSum(g, [root], {}, 0, r);
    assert Sum(g, {}) == 0;
    RunCovers(g, [root], {}, 0, r);
    assert root.Obj? && root.id in Nodes(g) ==> [root][0].id in Nodes(g);
    RunChildren(g, [root], {}, 0, r);
  }
}
