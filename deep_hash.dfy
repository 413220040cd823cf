/** `deepHashCode`: a work-list traversal from one root that adds up the
    `hashCode()` of every object it reaches whose class has its own
    `hashCode`, de-duplicating objects through a `HashSet`. */
module Hashing {
  import opened ObjectGraph
  import opened Capabilities
  import opened WorkList

  /** Whether `java.util.HashSet` takes object `o` for a different
      member `k`: both hash through a custom `hashCode` to the same value
      and `o.equals(k)` is a custom `equals` that says so.  Objects
      without a custom `hashCode` use identity hashes, which are taken
      never to collide. */
  predicate HashSetEquals(w: World, o: ObjId, k: ObjId)
    requires ValidWorld(w) && o in w.heap && k in w.heap
  {
    && CustomEquals(w.table, w.heap[o].cls)
    && CustomHashCode(w.table, w.heap[o].cls)
    && CustomHashCode(w.table, w.heap[k].cls)
    && w.hashCode(o) == w.hashCode(k)
    && w.equals(o, k)
  }

  ghost predicate StackOk(w: World, stack: seq<Ref>) {
    forall k :: 0 <= k < |stack| ==> RefOk(w.heap, stack[k])
  }

  /** `s` back to front. */
  function Reverse<T>(s: seq<T>): (r: seq<T>)
    ensures |r| == |s|
  {
    if s == [] then [] else [s[|s| - 1]] + Reverse(s[..|s| - 1])
  }

  lemma {:induction false} ReverseIndex<T>(s: seq<T>, k: int)
    requires 0 <= k < |s|
    ensures Reverse(s)[k] == s[|s| - 1 - k]
    decreases |s|
  {
    if k > 0 {
      ReverseIndex(s[..|s| - 1], k - 1);
    }
  }

  /** The keys of a map's entries, in iteration order. */
  function KeysOf(es: seq<Entry>): (r: seq<Ref>)
    ensures |r| == |es|
  {
    if es == [] then [] else [es[0].key] + KeysOf(es[1..])
  }

  /** The values of a map's entries, in iteration order. */
  function ValuesOf(es: seq<Entry>): (r: seq<Ref>)
    ensures |r| == |es|
  {
    if es == [] then [] else [es[0].value] + ValuesOf(es[1..])
  }

  lemma {:induction false} EntriesIndex(es: seq<Entry>, k: int)
    requires 0 <= k < |es|
    ensures KeysOf(es)[k] == es[k].key && ValuesOf(es)[k] == es[k].value
    decreases |es|
  {
    if k > 0 {
      EntriesIndex(es[1..], k - 1);
    }
  }

  /** The values of the readable fields among `fs`, in field order;
      a field whose read throws is skipped. */
  function FieldValues(fs: seq<Field>, n: Node): seq<Ref> {
    if fs == [] then []
    else
      var last := ReadField(fs[|fs| - 1], n);
      FieldValues(fs[..|fs| - 1], n) + (if last.Some? then [last.value] else [])
  }

  lemma {:induction false} FieldValuesClosed(h: Heap, fs: seq<Field>, n: Node)
    requires ShapeClosed(h, n.shape)
    ensures forall k :: 0 <= k < |FieldValues(fs, n)| ==> RefOk(h, FieldValues(fs, n)[k])
  {
    if fs != [] {
      FieldValuesClosed(h, fs[..|fs| - 1], n);
      var last := ReadField(fs[|fs| - 1], n);
      if last.Some? {
        ReadClosed(h, fs[|fs| - 1], n);
      }
    }
  }

  /** Whether object `o` is added into the sum: a non-container whose
      class has a custom `hashCode`. */
  predicate Contributes(w: World, o: ObjId)
    requires ValidWorld(w) && o in w.heap
  {
    w.heap[o].shape.Plain? && CustomHashCode(w.table, w.heap[o].cls)
  }

  /** What object `o` adds to the running hash. */
  function Contribution(w: World, o: ObjId): Int32
    requires ValidWorld(w) && o in w.heap
  {
    if Contributes(w, o) then w.hashCode(o) else 0
  }

  /** What processing object `o` puts on top of the stack, top first:
      array elements one `addFirst` at a time (so reversed), a
      collection's elements in order, a map's values then its keys, and
      the readable field values one `addFirst` at a time; nothing for an
      object with a custom `hashCode`. */
  function HashChildren(w: World, o: ObjId): seq<Ref>
    requires ValidWorld(w) && o in w.heap
  {
    var n := w.heap[o];
    match n.shape
    case ArrayShape(e) => Reverse(e)
    case SetShape(e) => e
    case ListShape(e) => e
    case MapShape(es) => ValuesOf(es) + KeysOf(es)
    case Plain(_) =>
      if CustomHashCode(w.table, n.cls) then []
      else Reverse(FieldValues(DeepFields(w.table, n.cls), n))
  }

  /** The children of an object are references into the heap, so the
      stack stays closed as they are pushed. */
  lemma HashChildrenClosed(w: World, o: ObjId, rest: seq<Ref>)
    requires ValidWorld(w) && o in w.heap && StackOk(w, rest)
    ensures StackOk(w, HashChildren(w, o))
    ensures StackOk(w, HashChildren(w, o) + rest)
  {
    var n := w.heap[o];
    var ch := HashChildren(w, o);
    assert ShapeClosed(w.heap, n.shape);
    match n.shape
    case ArrayShape(e) =>
      forall k | 0 <= k < |ch| ensures RefOk(w.heap, ch[k]) {
        ReverseIndex(e, k);
      }
    case SetShape(_) =>
    case ListShape(_) =>
    case MapShape(es) =>
      forall k | 0 <= k < |ch| ensures RefOk(w.heap, ch[k]) {
        if k < |es| {
          assert ch[k] == ValuesOf(es)[k];
          EntriesIndex(es, k);
        } else {
          assert ch[k] == KeysOf(es)[k - |es|];
          EntriesIndex(es, k - |es|);
        }
      }
    case Plain(_) =>
      if !CustomHashCode(w.table, n.cls) {
        var vs := FieldValues(DeepFields(w.table, n.cls), n);
        FieldValuesClosed(w.heap, DeepFields(w.table, n.cls), n);
        forall k | 0 <= k < |ch| ensures RefOk(w.heap, ch[k]) {
          ReverseIndex(vs, k);
        }
      }
    forall k | 0 <= k < |ch + rest| ensures RefOk(w.heap, (ch + rest)[k]) {
      if k >= |ch| {
        assert (ch + rest)[k] == rest[k - |ch|];
      }
    }
  }

  /** `visited.contains(o)`: the object itself, or a member `HashSet`
      takes it for. */
  predicate Seen(w: World, visited: set<ObjId>, o: ObjId)
    requires ValidWorld(w) && visited <= w.heap.Keys && o in w.heap
  {
    o in visited || exists k {:trigger HashSetEquals(w, o, k)} :: k in visited && HashSetEquals(w, o, k)
  }

  /** The heap as the loop of `deepHashCode` walks it. */
  ghost function HashGraph(w: World): (g: Graph)
    requires ValidWorld(w)
    ensures Nodes(g) == w.heap.Keys
  {
    Graph(map o | o in w.heap :: HashChildren(w, o),
          map o | o in w.heap :: Contribution(w, o) as int,
          set o, k | o in w.heap && k in w.heap && HashSetEquals(w, o, k) :: (o, k))
  }

  /** `g` agrees with the heap on everything the loop looks at. */
  ghost predicate IsHashGraph(w: World, g: Graph)
    requires ValidWorld(w)
  {
    && Nodes(g) == w.heap.Keys
    && (forall o {:trigger Children(g, o)} :: o in w.heap ==> Children(g, o) == HashChildren(w, o))
    && (forall o {:trigger Weight(g, o)} :: o in w.heap ==> Weight(g, o) == Contribution(w, o))
    && EqualAgrees(w, g)
  }

  /** `g`'s presence pairs are those of `HashSet` equality. */
  ghost predicate EqualAgrees(w: World, g: Graph)
    requires ValidWorld(w)
  {
    forall o, k {:trigger Eq(g, o, k)} :: o in w.heap && k in w.heap ==> (Eq(g, o, k) <==> HashSetEquals(w, o, k))
  }

  lemma HashGraphIs(w: World)
    requires ValidWorld(w)
    ensures IsHashGraph(w, HashGraph(w))
  {
  }

  /** `Seen` is the loop's presence test. */
  lemma SeenPresent(w: World, g: Graph, visited: set<ObjId>, o: ObjId)
    requires ValidWorld(w) && EqualAgrees(w, g) && visited <= w.heap.Keys && o in w.heap
    ensures Seen(w, visited, o) <==> Present(g, visited, o)
  {
    if Seen(w, visited, o) && o !in visited {
      var k :| k in visited && HashSetEquals(w, o, k);
      assert Eq(g, o, k);
    }
    if Present(g, visited, o) && o !in visited {
      var k :| k in visited && Eq(g, o, k);
      assert HashSetEquals(w, o, k);
    }
  }

  /** `deepHashCode(obj)`: the loop's total wrapped to a Java int.  The
      total is kept unbounded by the loop; wrapping it once is what
      wrapping at every `hash +=` gives (`Wrap32Absorb`), which is what
      the method below does. */
  ghost function DeepHash(w: World, root: Ref): Int32
    requires ValidWorld(w)
  {
    Wrap32(Run(HashGraph(w), [root], {}, 0).total)
  }

  /** The objects the traversal from `root` ends up holding in `visited`. */
  ghost function HashVisited(w: World, root: Ref): (v: set<ObjId>)
    requires ValidWorld(w)
    ensures v <= w.heap.Keys
  {
    Run(HashGraph(w), [root], {}, 0).visited
  }

  // ------------------------------------------------------------ properties of deepHashCode

  /** `deepHashCode(root)` is the wrapped sum of the `hashCode()`s of the
      contributing objects it visits; that set contains the root (up to
      `HashSet` equality) and is closed under children up to `HashSet`
      equality. */
  lemma DeepHashIsSum(w: World, root: Ref)
    requires ValidWorld(w) && RefOk(w.heap, root)
    ensures DeepHash(w, root) == Wrap32(Sum(HashGraph(w), HashVisited(w, root)))
    ensures PresentClosed(HashGraph(w), HashVisited(w, root))
    ensures root.Obj? ==> Present(HashGraph(w), HashVisited(w, root), root.id)
  {
    RunFromRoot(HashGraph(w), root);
  }

  /** The visited set lies inside every children-closed set containing
      the root. */
  lemma DeepHashLeast(w: World, root: Ref, s: set<ObjId>)
    requires ValidWorld(w)
    requires IdClosed(HashGraph(w), s) && (root.Obj? ==> root.id in s)
    ensures HashVisited(w, root) <= s
  {
    var g := HashGraph(w);
    RunLeast(g, [root], {}, 0, s, Run(g, [root], {}, 0));
  }

  /** `HashSet` de-duplication coincides with identity: no two distinct
      objects are taken for each other. */
  ghost predicate IdentityDedup(w: World)
    requires ValidWorld(w)
  {
    forall o, k {:trigger HashSetEquals(w, o, k)} :: o in w.heap && k in w.heap && HashSetEquals(w, o, k) ==> o == k
  }

  /** Under identity de-duplication the visited set contains the root and
      is children-closed, so with `DeepHashLeast` it is the least such
      set: every object reachable from the root is counted exactly once,
      whatever order the stack pushes them in. */
  lemma {:induction false} DeepHashReachable(w: World, root: ObjId)
    requires ValidWorld(w) && root in w.heap && IdentityDedup(w)
    ensures root in HashVisited(w, Obj(root))
    ensures IdClosed(HashGraph(w), HashVisited(w, Obj(root)))
  {
    var g := HashGraph(w);
    var v := HashVisited(w, Obj(root));
    DeepHashIsSum(w, Obj(root));
    HashGraphIs(w);
    SeenPresent(w, g, v, root);
    forall p | p in v
      ensures InSet(v, Children(g, p))
    {
      var ch := Children(g, p);
      HashChildrenClosed(w, p, []);
      assert Covered(g, v, ch);
      forall k | 0 <= k < |ch| && ch[k].Obj? ensures ch[k].id in v {
        assert RefOk(w.heap, ch[k]);
        SeenPresent(w, g, v, ch[k].id);
      }
    }
  }

  /** Objects that reach each other get the same deep hash; in
      particular every object of a cycle does. */
  lemma {:induction false} DeepHashMutualReach(w: World, a: ObjId, b: ObjId)
    requires ValidWorld(w) && a in w.heap && b in w.heap && IdentityDedup(w)
    requires b in HashVisited(w, Obj(a)) && a in HashVisited(w, Obj(b))
    ensures HashVisited(w, Obj(a)) == HashVisited(w, Obj(b))
    ensures DeepHash(w, Obj(a)) == DeepHash(w, Obj(b))
  {
    DeepHashReachable(w, a);
    DeepHashReachable(w, b);
    DeepHashLeast(w, Obj(b), HashVisited(w, Obj(a)));
    DeepHashLeast(w, Obj(a), HashVisited(w, Obj(b)));
    DeepHashIsSum(w, Obj(a));
    DeepHashIsSum(w, Obj(b));
  }

  /** A child of a visited object is visited too (identity de-duplication). */
  lemma DeepHashFollowsEdge(w: World, root: ObjId, o: ObjId, k: int)
    requires ValidWorld(w) && root in w.heap && IdentityDedup(w)
    requires o in HashVisited(w, Obj(root))
    requires 0 <= k < |HashChildren(w, o)| && HashChildren(w, o)[k].Obj?
    ensures HashChildren(w, o)[k].id in HashVisited(w, Obj(root))
  {
    DeepHashReachable(w, root);
    HashGraphIs(w);
  }

  /** A null root hashes to 0. */
  lemma DeepHashNull(w: World)
    requires ValidWorld(w)
    ensures DeepHash(w, Null) == 0
  {
    assert Run(HashGraph(w), [Null], {}, 0) == Run(HashGraph(w), [], {}, 0);
  }

  /** A non-container root whose class has a custom `hashCode` hashes to
      exactly its own `hashCode()`. */
  lemma DeepHashCustomRoot(w: World, o: ObjId)
    requires ValidWorld(w) && o in w.heap && Contributes(w, o)
    ensures DeepHash(w, Obj(o)) == w.hashCode(o)
  {
    var g := HashGraph(w);
    HashGraphIs(w);
    assert Children(g, o) == [];
    RunVisit(g, [Obj(o)], {}, 0);
    assert [] + [Obj(o)][1..] == [];
  }

  // ------------------------------------------------------------ the method

  /** `deepHashCode(obj)`, with the capability cache it consults. */
  method DeepHashCode(cache: ReflectionCache, w: World, obj: Ref) returns (hash: Int32)
    requires cache.Valid() && cache.table == w.table && ValidWorld(w) && RefOk(w.heap, obj)
    modifies cache
    ensures cache.Valid() && cache.Grew()
    ensures hash == DeepHash(w, obj)
  {
    HashGraphIs(w);
    hash := HashLoop(cache, w, HashGraph(w), obj);
  }

  /** The loop of `deepHashCode`, proved against any graph that agrees
      with the heap. */
  method HashLoop(cache: ReflectionCache, w: World, ghost g: Graph, obj: Ref) returns (hash: Int32)
    requires cache.Valid() && cache.table == w.table && ValidWorld(w) && RefOk(w.heap, obj)
    requires IsHashGraph(w, g)
    modifies cache
    ensures cache.Valid() && cache.Grew()
    ensures hash == Wrap32(Run(g, [obj], {}, 0).total)
  {
    var visited: set<ObjId> := {};
    var stack := [obj];
    hash := 0;
    ghost var total: int := 0;
    while stack != []
      invariant cache.Valid() && cache.Grew()
      invariant StackOk(w, stack) && visited <= w.heap.Keys
      invariant hash == Wrap32(total)
      invariant Run(g, stack, visited, total) == Run(g, [obj], {}, 0)
      decreases w.heap.Keys - visited, |stack|
    {
      var o := stack[0];
      if o.Null? || Seen(w, visited, o.id) {
        SkipTurn(w, g, stack, visited, total);
        stack := stack[1..];
      } else {
        var stack', hash' := HashVisit(cache, w, o.id, stack[1..], hash);
        VisitTurn(w, g, stack, visited, total, hash, stack', hash');
        stack, hash, total := stack', hash', total + Contribution(w, o.id);
        visited := visited + {o.id};
      }
    }
  }

  /** The turn of the loop on an object not yet present: its children
      are pushed and, for a custom `hashCode`, its hash is added. */
  method HashVisit(cache: ReflectionCache, w: World, o: ObjId, rest: seq<Ref>, hash: Int32)
      returns (stack: seq<Ref>, hash': Int32)
    requires cache.Valid() && cache.table == w.table && ValidWorld(w) && o in w.heap
    modifies cache
    ensures cache.Valid() && cache.Grew()
    ensures stack == HashChildren(w, o) + rest
    ensures hash' == if Contributes(w, o) then AddInt32(hash, w.hashCode(o)) else hash
  {
    var custom;
    stack, custom := PushHashChildren(cache, w, o, rest);
    hash' := if custom then AddInt32(hash, w.hashCode(o)) else hash;
  }

  /** A turn on null or on an object already present only pops. */
  lemma SkipTurn(w: World, g: Graph, stack: seq<Ref>, visited: set<ObjId>, total: int)
    requires ValidWorld(w) && IsHashGraph(w, g) && StackOk(w, stack) && visited <= w.heap.Keys
    requires stack != [] && (stack[0].Null? || (stack[0].id in w.heap && Seen(w, visited, stack[0].id)))
    ensures StackOk(w, stack[1..])
    ensures Run(g, stack[1..], visited, total) == Run(g, stack, visited, total)
  {
    if stack[0].Obj? {
      SeenPresent(w, g, visited, stack[0].id);
    }
    RunSkip(g, stack, visited, total);
  }

  /** What one turn on an object not yet present keeps: the stack stays
      in the heap, the run from the new state is the run from the old
      one, and the wrapped hash follows the total. */
  lemma VisitTurn(w: World, g: Graph, stack: seq<Ref>, visited: set<ObjId>, total: int, hash: Int32,
                   stack': seq<Ref>, hash': Int32)
    requires ValidWorld(w) && IsHashGraph(w, g) && StackOk(w, stack) && visited <= w.heap.Keys
    requires stack != [] && stack[0].Obj? && stack[0].id in w.heap && !Seen(w, visited, stack[0].id)
    requires hash == Wrap32(total)
    requires stack' == HashChildren(w, stack[0].id) + stack[1..]
    requires hash' == if Contributes(w, stack[0].id) then AddInt32(hash, w.hashCode(stack[0].id)) else hash
    ensures StackOk(w, stack') && visited + {stack[0].id} <= w.heap.Keys
    ensures hash' == Wrap32(total + Contribution(w, stack[0].id))
    ensures Run(g, stack', visited + {stack[0].id}, total + Contribution(w, stack[0].id)) == Run(g, stack, visited, total)
  {
    var o := stack[0].id;
    assert StackOk(w, stack') && stack' == Children(g, o) + stack[1..] by {
      assert StackOk(w, stack[1..]);
      PushedChildren(w, g, o, stack[1..], stack');
    }
    VisitStep(w, g, stack, visited, total, stack');
    HashStep(total, w.hashCode(o), Contributes(w, o), Contribution(w, o));
  }

  /** One turn of the loop on an object not yet present: with its
      children pushed, it is marked and its contribution added. */
  lemma VisitStep(w: World, g: Graph, stack: seq<Ref>, visited: set<ObjId>, total: int, stack': seq<Ref>)
    requires ValidWorld(w) && Nodes(g) == w.heap.Keys && EqualAgrees(w, g) && visited <= w.heap.Keys
    requires stack != [] && stack[0].Obj? && stack[0].id in w.heap && !Seen(w, visited, stack[0].id)
    requires Weight(g, stack[0].id) == Contribution(w, stack[0].id)
    requires stack' == Children(g, stack[0].id) + stack[1..]
    ensures visited + {stack[0].id} <= w.heap.Keys
    ensures Run(g, stack', visited + {stack[0].id}, total + Contribution(w, stack[0].id))
         == Run(g, stack, visited, total)
  {
    var o := stack[0].id;
    SeenPresent(w, g, visited, o);
    RunVisitTo(g, stack, visited, total, stack', visited + {o}, total + Contribution(w, o));
  }

  /** The stack after a visit is the graph's children on top of the rest. */
  lemma PushedChildren(w: World, g: Graph, o: ObjId, rest: seq<Ref>, stack: seq<Ref>)
    requires ValidWorld(w) && IsHashGraph(w, g) && o in w.heap && StackOk(w, rest)
    requires stack == HashChildren(w, o) + rest
    ensures stack == Children(g, o) + rest && StackOk(w, stack)
  {
    HashChildrenClosed(w, o, rest);
  }

  /** `if (custom) hash += obj.hashCode()` keeps `hash` the wrapped
      running total. */
  lemma HashStep(total: int, h: Int32, custom: bool, c: int)
    requires c == if custom then h else 0
    ensures (if custom then AddInt32(Wrap32(total), h) else Wrap32(total)) == Wrap32(total + c)
  {
    Wrap32Absorb(total, h);
  }

  /** The body of the loop for one newly visited object: push what
      `HashChildren` lists on top of `rest`, and report whether its
      `hashCode()` is to be added instead. */
  method PushHashChildren(cache: ReflectionCache, w: World, o: ObjId, rest: seq<Ref>)
      returns (stack: seq<Ref>, custom: bool)
    requires cache.Valid() && cache.table == w.table && ValidWorld(w) && o in w.heap
    modifies cache
    ensures cache.Valid() && cache.Grew()
    ensures stack == HashChildren(w, o) + rest
    ensures custom == Contributes(w, o)
    ensures Contribution(w, o) == if custom then w.hashCode(o) else 0
  {
    var n := w.heap[o];
    custom := false;
    match n.shape
    case ArrayShape(e) =>
      stack := PushEach(e, rest);
    case SetShape(e) =>
      stack := e + rest;
    case ListShape(e) =>
      stack := e + rest;
    case MapShape(es) =>
      stack := PushValuesKeys(es, rest);
    case Plain(_) =>
      custom := cache.HasCustomHashCode(n.cls);
      if custom {
        stack := rest;
      } else {
        var fields := cache.GetDeepDeclaredFields(n.cls);
        stack := PushFieldValues(fields, n, rest);
      }
  }

  /** A map's values, then its keys, pushed as `addAll` does: on top of
      the stack, in iteration order. */
  method PushValuesKeys(es: seq<Entry>, rest: seq<Ref>) returns (stack: seq<Ref>)
    ensures stack == (ValuesOf(es) + KeysOf(es)) + rest
  {
    stack := KeysOf(es) + rest;
    stack := ValuesOf(es) + stack;
  }

  /** `for (Object e : array) stack.addFirst(e)`. */
  method PushEach(e: seq<Ref>, stack: seq<Ref>) returns (r: seq<Ref>)
    ensures r == Reverse(e) + stack
  {
    r := stack;
    var i := 0;
    while i < |e|
      invariant i <= |e|
      invariant r == Reverse(e[..i]) + stack
    {
      assert e[..i + 1][..i] == e[..i];
      r := [e[i]] + r;
      i := i + 1;
    }
    assert e[..i] == e;
  }

  /** The loop over the deep fields: each readable field's value is
      `addFirst`ed, a field whose read throws is skipped. */
  method PushFieldValues(fields: seq<Field>, n: Node, stack: seq<Ref>) returns (r: seq<Ref>)
    ensures r == Reverse(FieldValues(fields, n)) + stack
  {
    r := stack;
    var i := 0;
    while i < |fields|
      invariant i <= |fields|
      invariant r == Reverse(FieldValues(fields[..i], n)) + stack
    {
      assert fields[..i + 1][..i] == fields[..i];
      var v := ReadField(fields[i], n);
      if v.Some? {
        assert Reverse(FieldValues(fields[..i + 1], n)) == [v.value] + Reverse(FieldValues(fields[..i], n));
        r := [v.value] + r;
      } else {
        assert FieldValues(fields[..i + 1], n) == FieldValues(fields[..i], n);
      }
      i := i + 1;
    }
    assert fields[..i] == fields;
  }
}
