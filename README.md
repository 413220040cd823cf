# DeepEquals in Dafny

A model of `com.cedarsoftware.util.DeepEquals`. This Java utility compares two object graphs field by field (`deepEquals`) and hashes one (`deepHashCode`), following references and coping with cycles.

## What is modelled

**Object graph** (module `ObjectGraph`)
- A finite heap maps object ids to nodes.
- A node has a class id and a shape: array, `Set`, other `Collection`, `Map` (contents in iteration order), or a plain object whose field values are keyed by declaring class and field name.
- A class table gives, per class:
  - its superclass;
  - whether it declares `equals(Object)` or `hashCode()`;
  - its declared fields, with their static and transient flags, their names, and whether `setAccessible` succeeded.
- The user classes' `equals` and `hashCode` are uninterpreted parameters of the `World`. They are not assumed lawful.
- Java `int` arithmetic is modelled with explicit 32-bit wrap-around (`Wrap32`, `AddInt32`).

**Capability caches** (module `Capabilities`)
- `hasCustomEquals`, `hasCustomHashCode` and `getDeepDeclaredFields` are methods of a `ReflectionCache` class.
- The class holds the three memo tables as `map` fields.
- Each method walks the superclass chain in a loop, is proved against a specification function, and states exactly how its table changes.

**Work-list key** (module `Pairs`)
- `DualKey` is a datatype pair of references.
- Its `equals` is value equality of the pair, i.e. identity of both components.
- Its `hashCode` is the wrapped sum of the components' hashes.

**`deepEquals`** (module `DeepEq`)
- The loop is the method `CompareFrom` over a `seq` stack and a `set` of visited pairs. It is proved equal to the ghost function `Run`, one turn (`Step`) at a time.
- `compareUnordered` is the method `CompareUnordered` and the map branch is `MatchMapEntries`. Both run nested loops with nested calls, specified by `Unordered`/`ContainsAll`/`FindMatch` and `MatchEntries`.
- The root pair of every call, including each nested probe, is pushed without a visited check.
- Pairs marked by a failed probe stay marked.
- A map that contains itself as a key would recurse forever. So the nested probes, and only they, consume a `fuel` counter, and the verdict `OutOfFuel` reports its exhaustion.
- The stack loop itself is proved to terminate with the measure (unvisited pairs, stack entries already visited).

**`deepHashCode`** (module `Hashing`)
- The loop is the method `HashLoop`. It is proved against a generic work-list traversal (module `WorkList`) over the graph the heap induces.
- Its visited `HashSet` de-duplicates by the objects' own `equals`/`hashCode`. It is modelled by `HashSetEquals`: a popped object `o` is taken for a present object `k` when `o`'s class has a custom `equals`, both classes have a custom `hashCode`, the two `hashCode`s agree, and `o.equals(k)` holds. Otherwise only `o` itself counts as present.
- The hash is the wrapped sum of `hashCode()` over the objects the traversal keeps, counting only classes with a custom `hashCode`.

**Meaning of the verdict** (module `Bisimulation`)
- On a heap without sets and maps, `deepEquals` returns `true` exactly when a relation between the two graphs exists that relates the roots, agrees on every related pair, and is closed under their child pairs.
- On such a heap no fuel is ever used, even on cyclic graphs. This assumes that the objects' own `hashCode` returns normally; a collection that reaches itself through collections alone makes Java overflow the stack instead (see "## Left out").

**Laws over all heaps of a kind** (module `Laws`)
- Two sets of one class that hold the same elements in another order are deeply equal and have the same deep hash. The elements must come from a region without sets and maps, and `HashSet` de-duplication must be identity.
- `deepEquals(a, a)` is `true` on regions without maps and without sets nested in sets, when custom `equals` is reflexive.
- `deepEquals` is symmetric on heaps without sets and maps, when custom `equals` is symmetric.
- Deeply equal objects hash alike on heaps without sets and maps, under four hypotheses:
  - de-duplication is identity;
  - every class overrides `equals` and `hashCode` together or neither;
  - `equals` keeps the `hashCode` contract;
  - all instances of a class carry the same fields.

**The JUnit scenarios** (modules `TestFixtures`, `PersonTests`, `CycleTests`, `HierarchyTests`, `BasicTests`, `SetTests`, `MapTests`, `OverrideTests`, `SelfListTests`)
- The scenarios are concrete heaps, and `DeepEqualsTest`'s assertions are proved as lemmas.
- Strings are objects of a class with its own `equals` and `hashCode` that compares their text. String hash codes are a parameter.
- Three further scenarios show where the laws stop:
  - `SetTests`: `compareUnordered` checks containment in one direction only, so two sets of pets are deeply equal in one argument order and not in the other.
  - `MapTests`: two maps keyed by distinct but deeply equal keys are compared on their values. A map holding two such keys is not deeply equal to itself.
  - `OverrideTests`: objects of a class that overrides `hashCode` but not `equals` are deeply equal and yet hash apart.
  - `SelfListTests`: two lists that each hold only themselves are compared and hashed, which Java cannot do.

## Model

| member | source | states |
|---|---|---|
| Pairs.Equals | deep-equals/java/com/cedarsoftware/util/DeepEquals.java:46-60 | a `DualKey` equals `other` iff `other` is a `DualKey` with identical components; `None` stands for null or an object of another class |
| Pairs.HashCode | deep-equals/java/com/cedarsoftware/util/DeepEquals.java:62-67 | the defining function of `DualKey.hashCode()`: the Java-int sum of the components' hashes, 0 for null |
| Pairs.EqualKeysEqualHashes | deep-equals/java/com/cedarsoftware/util/DeepEquals.java:46-67 | equal `DualKey`s have equal `hashCode()`, for every choice of the objects' own hash codes |
| Pairs.HashCodeFacts | deep-equals/java/com/cedarsoftware/util/DeepEquals.java:62-67 | the pair of two nulls hashes to 0; swapping the components keeps the (wrapped) sum |
| ObjectGraph.Wrap32Mod | deep-equals/java/com/cedarsoftware/util/DeepEquals.java:347 | the wrapped value is congruent to the exact one modulo 2^32 |
| ObjectGraph.Wrap32Absorb | deep-equals/java/com/cedarsoftware/util/DeepEquals.java:347 | adding into an already wrapped running `hash` equals wrapping the exact running sum |
| Capabilities.CustomEquals | deep-equals/java/com/cedarsoftware/util/DeepEquals.java:278-299 | the defining predicate of `hasCustomEquals(c)`: some class from `c` up to, excluding, Object declares `equals(Object)` |
| Capabilities.CustomHashCode | deep-equals/java/com/cedarsoftware/util/DeepEquals.java:364-385 | the defining predicate of `hasCustomHashCode(c)`: the same for `hashCode()` |
| Capabilities.DeepFields | deep-equals/java/com/cedarsoftware/util/DeepEquals.java:394-439 | the defining function of `getDeepDeclaredFields(c)`: the kept declared fields of `c`, then of its superclasses in turn |
| Capabilities.CustomEqualsUnfold | deep-equals/java/com/cedarsoftware/util/DeepEquals.java:286-298 | Object has no custom `equals`; any other class has one iff it declares `equals(Object)` or its superclass has one |
| Capabilities.CustomHashCodeUnfold | deep-equals/java/com/cedarsoftware/util/DeepEquals.java:372-384 | the same for `hashCode()` |
| Capabilities.ReflectionCache.constructor | deep-equals/java/com/cedarsoftware/util/DeepEquals.java:30-32 | the three memo tables start empty |
| Capabilities.ReflectionCache.HasCustomEquals | deep-equals/java/com/cedarsoftware/util/DeepEquals.java:278-299 | returns whether a class on the chain from `c` up to, excluding, Object declares `equals`; stores the answer under `c` only; a cached answer is returned and the cache is unchanged; the other tables are untouched |
| Capabilities.ReflectionCache.HasCustomHashCode | deep-equals/java/com/cedarsoftware/util/DeepEquals.java:364-385 | the same for `hashCode()` and `_customHash` |
| Capabilities.ReflectionCache.GetDeepDeclaredFields | deep-equals/java/com/cedarsoftware/util/DeepEquals.java:394-439 | returns the filtered fields of `c` and its ancestors, subclass first; stores the list under `c`; a cached list is returned unchanged |
| Capabilities.CollectDeepFields | deep-equals/java/com/cedarsoftware/util/DeepEquals.java:400-436 | the superclass walk collects exactly `DeepFields(c)` |
| Capabilities.KeptOf | deep-equals/java/com/cedarsoftware/util/DeepEquals.java:410-426 | the loop over one class's declared fields keeps, in order, exactly the filtered ones |
| Capabilities.KeptMembers | deep-equals/java/com/cedarsoftware/util/DeepEquals.java:421-425 | a field is kept iff it is declared and is non-static, non-transient and not named `this$…` |
| Capabilities.KeptAppend | deep-equals/java/com/cedarsoftware/util/DeepEquals.java:410-426 | filtering a concatenation gives the concatenation of the filtered parts, so declaration order is kept |
| Capabilities.FieldsFromStep | deep-equals/java/com/cedarsoftware/util/DeepEquals.java:403-436 | one step of the walk appends the current class's kept fields and moves to a lower-numbered superclass |
| Capabilities.DeepFieldsMembers | deep-equals/java/com/cedarsoftware/util/DeepEquals.java:394-439 | a field is in the list iff it passes the filter and is declared by `c`, one of its ancestors, or Object; whether `setAccessible` failed plays no part |
| Capabilities.DeepFieldsKept | deep-equals/java/com/cedarsoftware/util/DeepEquals.java:421-425 | every listed field passes the filter |
| Capabilities.Ancestry | deep-equals/java/com/cedarsoftware/util/DeepEquals.java:286-296 | the chain the walk visits starts at `c` (unless `c` is Object) and holds only classes other than Object |
| DeepEq.DeepEquals | deep-equals/java/com/cedarsoftware/util/DeepEquals.java:70-74 | the defining function of `deepEquals(a, b)`: the loop run from the single pair (a, b) with an empty `visited` |
| DeepEq.CompareGraphs | deep-equals/java/com/cedarsoftware/util/DeepEquals.java:70-74 | `deepEquals(a, b)` returns the verdict of the loop run from the single pair (a, b) with an empty `visited` |
| DeepEq.CompareFrom | deep-equals/java/com/cedarsoftware/util/DeepEquals.java:76-225 | the loop's verdict and final `visited` are those of `Run` from the pushed root pair and the caller's `visited` |
| DeepEq.TakeTurn | deep-equals/java/com/cedarsoftware/util/DeepEquals.java:83-221 | one turn of the loop body is `Step`: pop, mark, then null check, class check, array / set / collection / map / custom `equals` / fields in that order |
| DeepEq.Run | deep-equals/java/com/cedarsoftware/util/DeepEquals.java:81-225 | `visited` only grows, and every pair it gains is a pair of references of the heap |
| DeepEq.Step | deep-equals/java/com/cedarsoftware/util/DeepEquals.java:83-221 | `visited` only grows; a pair of the heap is always marked; a turn that goes on popped a pair of the heap; a turn that marks nothing new leaves as many marked pairs on the stack as the rest had |
| DeepEq.TurnMeasure | deep-equals/java/com/cedarsoftware/util/DeepEquals.java:81-84 | each turn that goes on decreases (unvisited pairs, stack entries already visited) lexicographically, so the stack loop terminates |
| DeepEq.PushElementPairs | deep-equals/java/com/cedarsoftware/util/DeepEquals.java:108-115 | the index pairs are pushed one by one with `addFirst`, each only if not in `visited` |
| DeepEq.PushFieldPairs | deep-equals/java/com/cedarsoftware/util/DeepEquals.java:207-221 | one pair per field whose read succeeds on both objects is pushed in field order, each only if not in `visited`; failed reads are skipped |
| DeepEq.PushFreshIs | deep-equals/java/com/cedarsoftware/util/DeepEquals.java:108-115 | pushing one by one leaves the unvisited pairs on the stack in reverse order (the last one on top) |
| DeepEq.PushFreshIn | deep-equals/java/com/cedarsoftware/util/DeepEquals.java:111-114 | a pair is on the new stack iff it was on the old one or is a child pair not yet visited |
| DeepEq.Unvisited | deep-equals/java/com/cedarsoftware/util/DeepEquals.java:111 | a pair is kept iff it is a child pair and not visited |
| DeepEq.FieldPairsIn | deep-equals/java/com/cedarsoftware/util/DeepEquals.java:207-221 | a pair is a field pair iff some field reads on both objects and gives that pair |
| DeepEq.FieldPairsAllRead | deep-equals/java/com/cedarsoftware/util/DeepEquals.java:207-215 | when every field reads, there is exactly one pair per field, in field order |
| DeepEq.PoppedIsMarked | deep-equals/java/com/cedarsoftware/util/DeepEquals.java:83-84 | the popped pair and everything visited before are in the final `visited` |
| DeepEq.MismatchIsUnequal | deep-equals/java/com/cedarsoftware/util/DeepEquals.java:86-106 | exactly one null, different classes, or arrays / sets / collections / maps of different sizes give `false` at once, with only the popped pair marked |
| DeepEq.NullsGoOn | deep-equals/java/com/cedarsoftware/util/DeepEquals.java:86-93 | two nulls are no reason to return: the loop continues with the rest |
| DeepEq.ElementsCompared | deep-equals/java/com/cedarsoftware/util/DeepEquals.java:100-117 | two arrays or collections of one class and equal length push their unvisited index pairs, the last on top, and continue |
| DeepEq.SetHashMismatch | deep-equals/java/com/cedarsoftware/util/DeepEquals.java:238-250 | equal-size sets with different deep hashes are unequal without any element probe |
| DeepEq.SetsCompared | deep-equals/java/com/cedarsoftware/util/DeepEquals.java:123-130 | a pair of sets is decided by `compareUnordered`, run on the `visited` that already holds the pair; on `true` the loop continues with its marks |
| DeepEq.CompareUnordered | deep-equals/java/com/cedarsoftware/util/DeepEquals.java:238-272 | the nested loops compute `Unordered`: size, then deep hash, then every left element needs some deep-equal right element |
| DeepEq.Unordered | deep-equals/java/com/cedarsoftware/util/DeepEquals.java:238-250 | the defining function of `compareUnordered`: unequal sizes or deep hashes give `false`, otherwise the containment loop decides; `visited` only grows |
| DeepEq.ContainsAll | deep-equals/java/com/cedarsoftware/util/DeepEquals.java:252-271 | the defining function of the outer loop: the first left element without a match gives its search's verdict, and `true` once all are matched; `visited` only grows |
| DeepEq.FindFirstMatch | deep-equals/java/com/cedarsoftware/util/DeepEquals.java:255-263 | the inner loop computes `FindMatch`: the first right candidate that a nested `deepEquals` accepts, with all probes' marks kept |
| DeepEq.FindMatch | deep-equals/java/com/cedarsoftware/util/DeepEquals.java:255-263 | a match found is at a candidate index, and `visited` only grows |
| DeepEq.ProbeAccepted | deep-equals/java/com/cedarsoftware/util/DeepEquals.java:258-262 | a probe that succeeds is the match, and its marks are kept |
| DeepEq.ProbeRejected | deep-equals/java/com/cedarsoftware/util/DeepEquals.java:255-258 | a probe that fails moves on to the next candidate, keeping the failed probe's marks |
| DeepEq.CandidatesExhausted | deep-equals/java/com/cedarsoftware/util/DeepEquals.java:255-265 | with no candidate left, no match is found |
| DeepEq.ElementMatched | deep-equals/java/com/cedarsoftware/util/DeepEquals.java:252-269 | a left element that finds a match lets the outer loop continue from the probes' marks |
| DeepEq.ElementUnmatched | deep-equals/java/com/cedarsoftware/util/DeepEquals.java:265-268 | a left element without a match makes `compareUnordered` return `false` |
| DeepEq.MatchMapEntries | deep-equals/java/com/cedarsoftware/util/DeepEquals.java:168-191 | the map loops compute `MatchEntries`: each left key needs a right key that a nested `deepEquals` accepts, and the value pair with the first such right entry is pushed unless already visited |
| DeepEq.MatchEntries | deep-equals/java/com/cedarsoftware/util/DeepEquals.java:168-191 | `visited` only grows, gaining only pairs of the heap; when it gains nothing, the stack holds as many marked pairs as before |
| DeepEq.MapsCompared | deep-equals/java/com/cedarsoftware/util/DeepEquals.java:158-194 | two maps of one class and equal size are decided by the entry matching, and on success the loop continues with the pushed value pairs |
| DeepEq.EntryMatched | deep-equals/java/com/cedarsoftware/util/DeepEquals.java:174-190 | a left key matched by the first accepting right key pushes the pair of the two values unless it is visited |
| DeepEq.EntryUnmatched | deep-equals/java/com/cedarsoftware/util/DeepEquals.java:181-184 | a left key no right key accepts makes `deepEquals` return `false` |
| DeepEq.CustomEqualsDecides | deep-equals/java/com/cedarsoftware/util/DeepEquals.java:196-203 | for a class with a custom `equals`, that method's verdict decides the pair and nothing is pushed |
| DeepEq.FieldsCompared | deep-equals/java/com/cedarsoftware/util/DeepEquals.java:205-221 | otherwise the unvisited field pairs of `getDeepDeclaredFields` are pushed (the last field on top) and the loop continues |
| Hashing.HashSetEquals | deep-equals/java/com/cedarsoftware/util/DeepEquals.java:307-315 | the defining predicate of the visited `HashSet`'s lookup: a popped object is taken for a present one when its class has a custom `equals`, both have a custom `hashCode`, the hash codes agree and its `equals` holds |
| Hashing.HashChildren | deep-equals/java/com/cedarsoftware/util/DeepEquals.java:322-359 | the defining function of what one object pushes: array elements reversed, collection elements in order, a map's values on top of its keys, nothing for a custom-hash object, the readable field values reversed |
| Hashing.DeepHash | deep-equals/java/com/cedarsoftware/util/DeepEquals.java:305-362 | the defining function of `deepHashCode(obj)`: the traversal's total from the root, wrapped to a Java int |
| Hashing.DeepHashCode | deep-equals/java/com/cedarsoftware/util/DeepEquals.java:305-362 | `deepHashCode(obj)` returns `DeepHash(obj)`; the caches only gain entries |
| Hashing.HashVisit | deep-equals/java/com/cedarsoftware/util/DeepEquals.java:322-359 | a new object pushes exactly its hash children on top of the rest of the stack, `hash` gains `obj.hashCode()` exactly when its class has a custom `hashCode`, and the caches only gain entries |
| Hashing.HashLoop | deep-equals/java/com/cedarsoftware/util/DeepEquals.java:307-361 | the stack loop returns the wrapped total of the traversal from `obj` |
| Hashing.PushHashChildren | deep-equals/java/com/cedarsoftware/util/DeepEquals.java:322-359 | pushes exactly `HashChildren(o)` on top of the stack (array elements reversed; a collection's elements in order; a map's values on top of its keys; the readable field values reversed; nothing for a custom-hash object) and reports whether `o` contributes its own `hashCode()` |
| Hashing.PushEach | deep-equals/java/com/cedarsoftware/util/DeepEquals.java:325-328 | `addFirst` of each element leaves them reversed on top of the stack |
| Hashing.PushValuesKeys | deep-equals/java/com/cedarsoftware/util/DeepEquals.java:340-341 | `addAll(0, keys)` then `addAll(0, values)` leaves the values on top of the keys |
| Hashing.PushFieldValues | deep-equals/java/com/cedarsoftware/util/DeepEquals.java:352-359 | the readable field values are pushed one by one; failed reads are skipped |
| Hashing.SkipTurn | deep-equals/java/com/cedarsoftware/util/DeepEquals.java:315-318 | null or an object already present only pops |
| Hashing.VisitTurn | deep-equals/java/com/cedarsoftware/util/DeepEquals.java:320-359 | marking a new object, pushing its children and adding its contribution is one step of the traversal, and `hash += obj.hashCode()` keeps `hash` the wrapped running total |
| Hashing.SeenPresent | deep-equals/java/com/cedarsoftware/util/DeepEquals.java:315 | the `HashSet` lookup agrees with the traversal's notion of "already present" |
| Hashing.DeepHashIsSum | deep-equals/java/com/cedarsoftware/util/DeepEquals.java:305-362 | the deep hash is the wrapped sum of the contributions over the set of kept objects, that set is closed under the traversal, and a non-null root is in it; which objects are kept depends on push order unless de-duplication is identity (`IdentityDedup`) |
| Hashing.DeepHashLeast | deep-equals/java/com/cedarsoftware/util/DeepEquals.java:312-360 | the kept objects lie within every closed set holding the root |
| Hashing.DeepHashReachable | deep-equals/java/com/cedarsoftware/util/DeepEquals.java:312-360 | when de-duplication is by identity, the kept objects are the root and a set closed under child edges |
| Hashing.DeepHashFollowsEdge | deep-equals/java/com/cedarsoftware/util/DeepEquals.java:322-359 | when de-duplication is by identity, every child of a kept object is kept |
| Hashing.DeepHashMutualReach | deep-equals/java/com/cedarsoftware/util/DeepEquals.java:305-362 | when de-duplication is by identity (`IdentityDedup`), two objects that reach each other have the same kept set and the same deep hash |
| Hashing.DeepHashNull | deep-equals/java/com/cedarsoftware/util/DeepEquals.java:315-318 | the deep hash of null is 0 |
| Hashing.DeepHashCustomRoot | deep-equals/java/com/cedarsoftware/util/DeepEquals.java:345-349 | a non-container root whose class has a custom `hashCode` hashes to exactly its own `hashCode()` |
| WorkList.RunSum | deep-equals/java/com/cedarsoftware/util/DeepEquals.java:312-360 | the traversal's total is the initial total plus the weights of the nodes it adds |
| WorkList.RunCovers | deep-equals/java/com/cedarsoftware/util/DeepEquals.java:312-360 | every object on the stack ends up present in `visited` |
| WorkList.RunChildren | deep-equals/java/com/cedarsoftware/util/DeepEquals.java:312-360 | the children of every newly visited node end up present |
| WorkList.RunLeast | deep-equals/java/com/cedarsoftware/util/DeepEquals.java:312-360 | a traversal starting inside a closed set never leaves it |
| WorkList.RunFromRoot | deep-equals/java/com/cedarsoftware/util/DeepEquals.java:307-361 | from the root alone: the total is the sum over the visited set, which is closed and holds the root |
| Bisimulation.DeepEqualsIsBisimilarity | deep-equals/java/com/cedarsoftware/util/DeepEquals.java:76-225 | on a heap without sets and maps, `deepEquals` never runs out of fuel, and it returns `true` iff the roots are related by a consistent relation closed under child pairs |
| Bisimulation.RunSound | deep-equals/java/com/cedarsoftware/util/DeepEquals.java:81-225 | on such a heap the loop returns a verdict, and on `true` its final `visited` is such a relation |
| Bisimulation.RunComplete | deep-equals/java/com/cedarsoftware/util/DeepEquals.java:81-225 | a stack inside such a relation is accepted, and only pairs of the relation get marked |
| Bisimulation.RelatedAreEqual | deep-equals/java/com/cedarsoftware/util/DeepEquals.java:70-74 | two roots related by such a relation are deeply equal |
| Bisimulation.FuelIrrelevant | deep-equals/java/com/cedarsoftware/util/DeepEquals.java:76-225 | without sets and maps the verdict does not depend on fuel: the stack loop alone terminates |
| Bisimulation.DeepEqualsReflexive | deep-equals/java/com/cedarsoftware/util/DeepEquals.java:70-74 | on such a heap with a reflexive custom `equals`, every object is deeply equal to itself |
| Bisimulation.StepOrdered | deep-equals/java/com/cedarsoftware/util/DeepEquals.java:83-221 | on a pair that is not a set or map, a turn either stops with `false` or pushes the unvisited child pairs |
| Laws.FlatRun | deep-equals/java/com/cedarsoftware/util/DeepEquals.java:76-225 | on pairs drawn from a region without sets and maps the loop reaches a verdict, whichever the two objects are |
| Laws.FlatDiagonal | deep-equals/java/com/cedarsoftware/util/DeepEquals.java:76-225 | pairing every reference of such a region with itself gives a consistent, child-closed relation |
| Laws.SelfProbe | deep-equals/java/com/cedarsoftware/util/DeepEquals.java:255-263 | a nested probe of an element of such a region against itself succeeds, whatever was visited before |
| Laws.FirstMatchFound | deep-equals/java/com/cedarsoftware/util/DeepEquals.java:255-263 | a left element that occurs among the right candidates is matched: earlier probes answer without running out of fuel |
| Laws.AllContained | deep-equals/java/com/cedarsoftware/util/DeepEquals.java:252-271 | when every left element occurs on the right, the outer loop of `compareUnordered` accepts |
| Laws.SetVisitsWithin | deep-equals/java/com/cedarsoftware/util/DeepEquals.java:305-362 | under identity de-duplication the hash traversal from a set keeps, besides the set, only what the traversal from a set holding all its elements keeps |
| Laws.SetHashesEqual | deep-equals/java/com/cedarsoftware/util/DeepEquals.java:305-362 | under identity de-duplication two sets with the same elements, in any order, have the same deep hash |
| Laws.UnorderedAccepts | deep-equals/java/com/cedarsoftware/util/DeepEquals.java:238-272 | `compareUnordered` accepts two sets whose elements form the same multiset, from such a region, under identity de-duplication, with fuel at least 1 |
| Laws.ReorderedSetsAreEqual | deep-equals/java/com/cedarsoftware/util/DeepEquals.java:119-130 | two sets of one class whose elements are the same multiset, all drawn from a region without sets and maps (`Flat`), are deeply equal at every fuel of at least 1 and hash alike, when de-duplication is by identity (`IdentityDedup`) |
| Laws.SetAgainstItself | deep-equals/java/com/cedarsoftware/util/DeepEquals.java:119-130 | a set of such elements compared with itself passes and pushes nothing |
| Laws.ShallowRun | deep-equals/java/com/cedarsoftware/util/DeepEquals.java:76-225 | a stack of pairs of a region without maps and without sets in sets, each paired with itself, is accepted |
| Laws.DeepEqualsReflexiveShallow | deep-equals/java/com/cedarsoftware/util/DeepEquals.java:70-74 | `deepEquals(a, a)` is `true` for every reference of such a region, with fuel at least 1 and reflexive custom `equals` |
| Laws.TransposeBisim | deep-equals/java/com/cedarsoftware/util/DeepEquals.java:76-225 | with a symmetric `equals`, the transpose of a consistent child-closed relation is one too |
| Laws.DeepEqualsSymmetric | deep-equals/java/com/cedarsoftware/util/DeepEquals.java:70-74 | on heaps without sets and maps, with symmetric custom `equals`, `deepEquals(a, b)` and `deepEquals(b, a)` agree |
| Laws.HashKidsRelated | deep-equals/java/com/cedarsoftware/util/DeepEquals.java:322-359 | the hashed children of two related objects are related child to child, in both directions |
| Laws.PartnersClosed | deep-equals/java/com/cedarsoftware/util/DeepEquals.java:305-362 | the objects related to a closed kept set, on either side, form a closed set |
| Laws.ContributorsIdentical | deep-equals/java/com/cedarsoftware/util/DeepEquals.java:307-315 | two related objects, one of them hashed by its own `hashCode`, are the same object under the four hypotheses |
| Laws.SameContributors | deep-equals/java/com/cedarsoftware/util/DeepEquals.java:345-349 | kept sets inside each other's partners add the same hash codes |
| Laws.HashOfContributors | deep-equals/java/com/cedarsoftware/util/DeepEquals.java:345-349 | the deep hash is the wrapped sum of the hash codes of the kept objects with a custom `hashCode` |
| Laws.DeepEqualsHashConsistent | deep-equals/java/com/cedarsoftware/util/DeepEquals.java:70-74 | deeply equal references have equal deep hashes when there are no sets and maps, de-duplication is identity, overrides are paired, `equals` keeps the `hashCode` contract and instances of a class carry the same fields |
| TestFixtures.ClassCapabilities | deep-equals/test/com/cedarsoftware/util/DeepEqualsTest.java:29-105 | Person, Pet, Cycle and FixedHierarchy have neither custom `equals` nor `hashCode`; String has both; SmartPet has its own `equals` |
| TestFixtures.PersonFields | deep-equals/test/com/cedarsoftware/util/DeepEqualsTest.java:29-34 | Person is compared on `first`, `last`, `pet`: the inner class's `this$0` is filtered out |
| TestFixtures.PetFields | deep-equals/test/com/cedarsoftware/util/DeepEqualsTest.java:36-40 | Pet is compared on `name`, `type` |
| TestFixtures.CycleFields | deep-equals/test/com/cedarsoftware/util/DeepEqualsTest.java:48-52 | Cycle is compared on `value`, `next` |
| TestFixtures.HierarchyFields | deep-equals/test/com/cedarsoftware/util/DeepEqualsTest.java:54-60 | FixedHierarchy is compared on `value`, `child1`, `child2`, `child3` |
| TestFixtures.CustomRoot | deep-equals/java/com/cedarsoftware/util/DeepEquals.java:196-203 | two objects of a class with its own `equals` are deeply equal exactly when that `equals` says so |
| PersonTests.PersonsWithDifferentPetsDiffer | deep-equals/test/com/cedarsoftware/util/DeepEqualsTest.java:107-135 | two persons with equal but distinct name strings and pets of different names are not deeply equal |
| PersonTests.PersonsSharingPetAreEqual | deep-equals/test/com/cedarsoftware/util/DeepEqualsTest.java:138-139 | once they share the pet, they are deeply equal |
| CycleTests.CorrespondingRingsAreEqual | deep-equals/test/com/cedarsoftware/util/DeepEqualsTest.java:163-189 | corresponding objects of two three-object rings are deeply equal, although the graphs are cyclic |
| CycleTests.ShiftedRingsDiffer | deep-equals/test/com/cedarsoftware/util/DeepEqualsTest.java:190-192 | rings entered at different points are not deeply equal |
| CycleTests.RingHashesAgree | deep-equals/test/com/cedarsoftware/util/DeepEqualsTest.java:143-161 | every object of a ring has the same deep hash |
| HierarchyTests.HierarchiesAreEqual | deep-equals/test/com/cedarsoftware/util/DeepEqualsTest.java:195-220 | two hierarchies whose roots point to the same child twice are deeply equal |
| BasicTests.SmartPetsDiffer | deep-equals/test/com/cedarsoftware/util/DeepEqualsTest.java:222-232 | two SmartPets alike in every field are not deeply equal, because their pathological `equals` is called |
| BasicTests.BasicEquals | deep-equals/test/com/cedarsoftware/util/DeepEqualsTest.java:244-251 | `new String("One")` is deeply equal to another `new String("One")` and not to `new String("Two")` |
| BasicTests.BasicHashCode | deep-equals/test/com/cedarsoftware/util/DeepEqualsTest.java:261-264 | the deep hash of a string is its own `hashCode()` |
| SetTests.SetHashesAgree | deep-equals/java/com/cedarsoftware/util/DeepEquals.java:305-362 | each set of two pets hashes to the wrapped sum of the hash codes of "Fido" and "Terrier" (the shared strings are counted once) |
| SetTests.SetsForward | deep-equals/java/com/cedarsoftware/util/DeepEquals.java:238-272 | set1 (two Fido-the-Terrier pets) is deeply equal to set2 (one such pet and one Terrier-the-Fido pet): both left pets find set2's first pet |
| SetTests.SetsBackward | deep-equals/java/com/cedarsoftware/util/DeepEquals.java:238-272 | in the other order the comparison is `false`, so containment is checked one way only, and the failed probe of set2's second pet stays marked in `visited` |
| SetTests.PetsMatch | deep-equals/java/com/cedarsoftware/util/DeepEquals.java:76-225 | a probe of two pets with the same strings succeeds and marks only its pair and the string pairs |
| SetTests.PetsClash | deep-equals/java/com/cedarsoftware/util/DeepEquals.java:76-225 | a probe of pets with swapped strings fails, marking the pet pair and the first string pair compared |
| MapTests.KeyProbe | deep-equals/java/com/cedarsoftware/util/DeepEquals.java:76-225 | two distinct keys holding the same string are deeply equal, whatever was visited before |
| MapTests.TwinKeysDecidedByValues | deep-equals/java/com/cedarsoftware/util/DeepEquals.java:158-194 | two one-entry maps keyed by distinct, deeply equal keys are deeply equal exactly when their values are |
| MapTests.TwinKeysCompared | deep-equals/java/com/cedarsoftware/util/DeepEquals.java:158-194 | with values of texts `t1` and `t2` the maps are deeply equal iff `t1 == t2` |
| MapTests.FirstKeyMatched | deep-equals/java/com/cedarsoftware/util/DeepEquals.java:174-190 | in a map compared with itself, the first key matches itself and its value is paired with itself |
| MapTests.SecondKeyMatched | deep-equals/java/com/cedarsoftware/util/DeepEquals.java:174-190 | the second key is matched by the first right key too, so its value is paired with the first value |
| MapTests.SelfMapUnequal | deep-equals/java/com/cedarsoftware/util/DeepEquals.java:158-194 | a map with two distinct, deeply equal keys and different values is not deeply equal to itself, though its keys are deeply equal |
| OverrideTests.EqualButHashedApart | deep-equals/java/com/cedarsoftware/util/DeepEquals.java:205-221 | two fieldless objects of a class that overrides `hashCode` but not `equals` are deeply equal, and their deep hashes are their own, possibly different, hash codes |
| SelfListTests.SelfListsCompared | deep-equals/java/com/cedarsoftware/util/DeepEquals.java:62-67 | two lists that each hold only themselves are deeply equal at every fuel and hash to 0, where Java overflows the stack in the lists' own `hashCode` |

## Left out

- ReadField: a primitive field or primitive array element is a slot holding one fixed reference to its boxed value. Java's `field.get` and `Array.get` box the value afresh on each read (for `double` always, for `int` outside the `Integer` cache), so a pair of such boxes is never found in `visited` again. In the model a box pair marked by an earlier probe, even a failed one, is skipped when met again, where Java compares it once more. Runs can therefore differ: a field pair marked by a failed set probe can let the model accept a later pair that Java rejects. Fresh boxing on each read is not modelled; the proved laws do not rely on box identity.
- Reflection (`getDeclaredFields`, `getDeclaredMethod`, `setAccessible`, `Array.get`, `Array.getLength`) is abstracted. It is replaced by the class table, the heap's shapes and an optional field read. The exception and `ThreadDeath` handling are not modelled. Inside the field walk their only effect, skipping a field or a class, is covered by a read that fails. The exception that escapes the capability walks is left out (see the `ValidTable` line).
- ValidTable: the class table holds only classes whose superclass chain reaches Object. For an interface or a primitive class, `getSuperclass()` is null: `hasCustomEquals` and `hasCustomHashCode` then throw a `NullPointerException` at `c = c.getSuperclass()` (DeepEquals.java:295 and :381), and `getDeepDeclaredFields` stops at null (:435). The algorithm itself only asks about the class of a non-array object, which always reaches Object.
- The caches are `ConcurrentHashMap`s; thread safety is not modelled. They are sequential maps of one `ReflectionCache` object that is passed to the methods, because Dafny has no mutable statics.
- The bodies of user and JDK `equals`/`hashCode` (String, Double, Calendar, Date, SmartPet) are foreign code. They are uninterpreted parameters. Strings compare and hash by their text through a hash parameter `h`.
- DeepEqualsIsBisimilarity, FuelIrrelevant and DeepHash: the foreign `equals`/`hashCode` are total functions that always return. In Java, `visited.add(dualKey)` (DeepEquals.java:84) calls `DualKey.hashCode` (:64), and that calls the objects' own `hashCode()`; `deepHashCode` does the same at `visited.contains(obj)` (:315). For a list, set or map that reaches itself through containers alone, such as a list that contains itself, the JDK's container `hashCode` recurses until the stack overflows. For such a heap the model gives a verdict and a deep hash: two lists that each contain only themselves are `Equal`, at every fuel, with deep hash 0 (`SelfListTests.SelfListsCompared`).
- Floating-point values in `testBasicEquals` and `testBasicHashCode` are not scenarios: they reach the algorithm only through `Double.equals`/`hashCode`.
- `HashSet`/`HashMap` iteration order and bucket hashing are not modelled. Containers are sequences in their iteration order.
- The `Set` class of the set scenario declares its own `equals` and `hashCode`. In the JDK they are inherited from `AbstractSet`. The difference is never seen: `deepEquals` takes the set branch before it asks `hasCustomEquals`, and `deepHashCode` treats a collection as a container before it asks `hasCustomHashCode`.
- `deepEquals` on a map containing itself as a key does not terminate. The nested probes use a `fuel` count instead, and `OutOfFuel` is the model's verdict when no verdict was reached. The lemmas about graphs without sets and maps prove that the fuel is never needed there.
- `Step` stops with `false` on a pair outside the heap, which cannot arise from a closed heap. The methods only ever see closed pairs.
- The `instanceof Set` / `Collection` / `Map` branches dispatch on the shape of the first object only, after the class check. With equal classes both objects have the same kind of shape; the model reads the second object's contents from its own shape.
- `testDeepEquals`'s `ArrayClass` half is not a scenario. Its arrays mix boxed primitives and floating-point values that are only compared through their JDK `equals`. The array branch is covered generically by `DeepEq.ElementsCompared` and `DeepEq.PushElementPairs`.
- The first assertion of `testHashCodeAndEquals` (`deepHashCode(p1)` differs from the strings' hashes) depends on concrete `String.hashCode` values, which are a parameter here.
- The hierarchy scenario's `HierarchyTests.HierarchiesAreEqual` and the other equality scenarios hold for every fuel. The set scenario lemmas `SetTests.SetsForward` and `SetTests.SetsBackward` are stated for at least one unit of fuel, which is what the nested element probes need.
- CompareUnordered: `compareUnordered` is proved to accept reordered sets (`Laws.UnorderedAccepts`, and `Laws.ReorderedSetsAreEqual` for `deepEquals` and `deepHashCode`) only for elements from a region without sets and maps, under identity de-duplication. Nested sets and maps inside the elements are not covered.
- DeepEqualsReflexive: reflexivity is proved for heaps without sets and maps, and by `Laws.DeepEqualsReflexiveShallow` for regions without maps and without sets nested in sets, with fuel at least 1. It does not hold in general. `MapTests.SelfMapUnequal` is a map that is not deeply equal to itself. A set that contains itself exhausts any fuel in the model, and in Java recurses until the stack overflows.
- DeepEqualsSymmetric: symmetry is proved only without sets and maps. `SetTests.SetsForward` and `SetTests.SetsBackward` show that it fails with sets.
- DeepEqualsHashConsistent: hash consistency is proved only under the hypotheses it names (`Ordered`, `IdentityDedup`, `PairedOverrides`, `HashContract`, `UniformSlots`). `OverrideTests.EqualButHashedApart` shows that it fails when a class overrides `hashCode` without `equals`. Under `IdentityDedup` two distinct related objects cannot both have custom `equals` that holds, so related strings must be one object.
- DeepHashIsSum: the kept set, and so the deep hash, is independent of push order only under identity de-duplication (`IdentityDedup`). With distinct objects that `HashSet` takes for each other, the first one popped is kept.
- HashSetEquals: a class without a custom `hashCode` hashes by identity, and identity hashes are taken never to collide. Java would also de-duplicate an object whose custom `equals` holds of a present object with an identical identity hash; the model does not.
