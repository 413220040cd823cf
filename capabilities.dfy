/** The capability cache: which classes override `equals`/`hashCode`,
    and the filtered list of fields a class is compared on.  Each answer
    is a function of the class alone and is memoised per class. */
module Capabilities {
  import opened ObjectGraph

  /** The classes the superclass walk of `hasCustomEquals` and
      `hasCustomHashCode` looks at: `c` and its ancestors, most derived
      first, stopping before Object. */
  function Ancestry(t: ClassTable, c: ClassId): (r: seq<ClassId>)
    requires ValidTable(t) && c < |t|
    ensures forall k :: 0 <= k < |r| ==> ObjectClass < r[k] < |t|
    ensures c != ObjectClass ==> |r| > 0 && r[0] == c
    decreases c
  {
    if c == ObjectClass then [] else [c] + Ancestry(t, t[c].superclass.value)
  }

  /** Some class on the chain from `c` up to, but excluding, Object
      declares `equals(Object)`. */
  predicate CustomEquals(t: ClassTable, c: ClassId)
    requires ValidTable(t) && c < |t|
  {
    var a := Ancestry(t, c);
    exists k :: 0 <= k < |a| && t[a[k]].declaresEquals
  }

  /** Some class on the chain from `c` up to, but excluding, Object
      declares `hashCode()`. */
  predicate CustomHashCode(t: ClassTable, c: ClassId)
    requires ValidTable(t) && c < |t|
  {
    var a := Ancestry(t, c);
    exists k :: 0 <= k < |a| && t[a[k]].declaresHashCode
  }

  /** One step of the superclass walk. */
  lemma {:induction false} CustomEqualsUnfold(t: ClassTable, c: ClassId)
    requires ValidTable(t) && c < |t|
    ensures c == ObjectClass ==> !CustomEquals(t, c)
    ensures c != ObjectClass ==>
      (CustomEquals(t, c) <==> t[c].declaresEquals || CustomEquals(t, t[c].superclass.value))
  {
    if c != ObjectClass {
      var p := t[c].superclass.value;
      var a, b := Ancestry(t, c), Ancestry(t, p);
      assert a == [c] + b;
      if CustomEquals(t, p) {
        var k :| 0 <= k < |b| && t[b[k]].declaresEquals;
        assert a[k + 1] == b[k];
      }
      if CustomEquals(t, c) && !t[c].declaresEquals {
        var k :| 0 <= k < |a| && t[a[k]].declaresEquals;
        assert k > 0 && b[k - 1] == a[k];
      }
    }
  }

  lemma {:induction false} CustomHashCodeUnfold(t: ClassTable, c: ClassId)
    requires ValidTable(t) && c < |t|
    ensures c == ObjectClass ==> !CustomHashCode(t, c)
    ensures c != ObjectClass ==>
      (CustomHashCode(t, c) <==> t[c].declaresHashCode || CustomHashCode(t, t[c].superclass.value))
  {
    if c != ObjectClass {
      var p := t[c].superclass.value;
      var a, b := Ancestry(t, c), Ancestry(t, p);
      assert a == [c] + b;
      if CustomHashCode(t, p) {
        var k :| 0 <= k < |b| && t[b[k]].declaresHashCode;
        assert a[k + 1] == b[k];
      }
      if CustomHashCode(t, c) && !t[c].declaresHashCode {
        var k :| 0 <= k < |a| && t[a[k]].declaresHashCode;
        assert k > 0 && b[k - 1] == a[k];
      }
    }
  }

  // ------------------------------------------------------------- fields

  predicate StartsWith(s: string, prefix: string) {
    |prefix| <= |s| && s[..|prefix|] == prefix
  }

  /** The filter of `getDeepDeclaredFields`: instance fields that are not
      transient and are not a compiler-made outer-instance reference. */
  predicate Keep(f: Field) {
    !f.isStatic && !f.isTransient && !StartsWith(f.name, "this$")
  }

  /** The kept fields of one class, in declaration order. */
  function Kept(fs: seq<Field>): seq<Field> {
    if fs == [] then []
    else Kept(fs[..|fs| - 1]) + (if Keep(fs[|fs| - 1]) then [fs[|fs| - 1]] else [])
  }

  lemma {:induction false} KeptMembers(fs: seq<Field>)
    ensures forall f :: f in Kept(fs) <==> f in fs && Keep(f)
  {
    if fs != [] {
      var init := fs[..|fs| - 1];
      KeptMembers(init);
      assert fs == init + [fs[|fs| - 1]];
    }
  }

  /** The filter keeps the relative order of the fields it keeps. */
  lemma {:induction false} KeptAppend(a: seq<Field>, b: seq<Field>)
    ensures Kept(a + b) == Kept(a) + Kept(b)
    decreases |b|
  {
    if b != [] {
      var init := b[..|b| - 1];
      assert (a + b)[..|a + b| - 1] == a + init;
      KeptAppend(a, init);
    } else {
      assert a + b == a;
    }
  }

  /** What `getDeepDeclaredFields(c)` computes: the kept fields of `c`,
      then those of its superclass, and so on up to and including Object. */
  function DeepFields(t: ClassTable, c: ClassId): seq<Field>
    requires ValidTable(t) && c < |t|
    decreases c
  {
    Kept(t[c].declaredFields) +
      if t[c].superclass.Some? then DeepFields(t, t[c].superclass.value) else []
  }

  /** The fields still to be collected when the walk is at `curr`
      (`None` once it has passed Object). */
  function FieldsFrom(t: ClassTable, curr: Option<ClassId>): seq<Field>
    requires ValidTable(t) && (curr.Some? ==> curr.value < |t|)
  {
    if curr.Some? then DeepFields(t, curr.value) else []
  }

  lemma FieldsFromStep(t: ClassTable, k: ClassId)
    requires ValidTable(t) && k < |t|
    ensures t[k].superclass.Some? ==> t[k].superclass.value < k
    ensures FieldsFrom(t, Some(k)) == Kept(t[k].declaredFields) + FieldsFrom(t, t[k].superclass)
  {
  }

  lemma SeqAssoc<T>(a: seq<T>, b: seq<T>, c: seq<T>)
    ensures (a + b) + c == a + (b + c)
  {
  }

  /** A field is listed iff it is declared by `c` or by an ancestor
      (Object included) and passes the filter; accessibility plays no part. */
  lemma {:induction false} DeepFieldsMembers(t: ClassTable, c: ClassId, f: Field)
    requires ValidTable(t) && c < |t|
    ensures f in DeepFields(t, c) <==>
      Keep(f) && exists a :: a in Ancestry(t, c) + [ObjectClass] && f in t[a].declaredFields
    decreases c
  {
    KeptMembers(t[c].declaredFields);
    if c != ObjectClass {
      var p := t[c].superclass.value;
      DeepFieldsMembers(t, p, f);
      assert Ancestry(t, c) + [ObjectClass] == [c] + (Ancestry(t, p) + [ObjectClass]);
    } else {
      assert Ancestry(t, c) + [ObjectClass] == [ObjectClass];
    }
  }

  /** Every listed field passes the filter. */
  lemma {:induction false} DeepFieldsKept(t: ClassTable, c: ClassId)
    requires ValidTable(t) && c < |t|
    ensures forall f :: f in DeepFields(t, c) ==> Keep(f)
    decreases c
  {
    KeptMembers(t[c].declaredFields);
    if c != ObjectClass {
      DeepFieldsKept(t, t[c].superclass.value);
    }
  }

  /** The superclass walk of `getDeepDeclaredFields`, without the cache:
      a loop over the chain and, inside it, over each class's declared
      fields. */
  method CollectDeepFields(table: ClassTable, c: ClassId) returns (fields: seq<Field>)
    requires ValidTable(table) && c < |table|
    ensures fields == DeepFields(table, c)
  {
    fields := [];
    var curr: Option<ClassId> := Some(c);
    while curr.Some?
      invariant curr.Some? ==> curr.value < |table|
      invariant fields + FieldsFrom(table, curr) == DeepFields(table, c)
      decreases if curr.Some? then curr.value + 1 else 0
    {
      var kept := KeptOf(table[curr.value].declaredFields);
      WalkStep(table, curr.value, fields, kept, DeepFields(table, c));
      fields, curr := fields + kept, table[curr.value].superclass;
    }
  }

  lemma WalkStep(t: ClassTable, k: ClassId, fields: seq<Field>, kept: seq<Field>, goal: seq<Field>)
    requires ValidTable(t) && k < |t|
    requires kept == Kept(t[k].declaredFields)
    requires fields + FieldsFrom(t, Some(k)) == goal
    ensures t[k].superclass.Some? ==> t[k].superclass.value < k
    ensures (fields + kept) + FieldsFrom(t, t[k].superclass) == goal
  {
    var next := t[k].superclass;
    var rest := FieldsFrom(t, next);
    FieldsFromStep(t, k);
    assert FieldsFrom(t, Some(k)) == kept + rest;
    SeqAssoc(fields, kept, rest);
  }

  /** The inner loop of the walk: one class's declared fields, filtered. */
  method KeptOf(local: seq<Field>) returns (kept: seq<Field>)
    ensures kept == Kept(local)
  {
    kept := [];
    var i := 0;
    while i < |local|
      invariant i <= |local|
      invariant kept == Kept(local[..i])
    {
      assert local[..i + 1][..i] == local[..i];
      if Keep(local[i]) {
        kept := kept + [local[i]];
      }
      i := i + 1;
    }
    assert local[..i] == local;
  }

  // ------------------------------------------------------------- the cache

  /** The three process-wide memo tables `_customEquals`, `_customHash`
      and `_reflectedFields`, over a fixed class table. */
  class ReflectionCache {
    const table: ClassTable
    var customEquals: map<ClassId, bool>
    var customHash: map<ClassId, bool>
    var reflectedFields: map<ClassId, seq<Field>>

    /** Every memoised entry is the answer the walk would compute. */
    ghost predicate Valid()
      reads this
    {
      && ValidTable(table)
      && (forall c :: c in customEquals ==> c < |table| && customEquals[c] == CustomEquals(table, c))
      && (forall c :: c in customHash ==> c < |table| && customHash[c] == CustomHashCode(table, c))
      && (forall c :: c in reflectedFields ==> c < |table| && reflectedFields[c] == DeepFields(table, c))
    }

    /** No memoised answer is forgotten: every class answered before is
        still answered. */
    twostate predicate Grew()
      reads this
    {
      && old(customEquals).Keys <= customEquals.Keys
      && old(customHash).Keys <= customHash.Keys
      && old(reflectedFields).Keys <= reflectedFields.Keys
    }

    constructor (t: ClassTable)
      requires ValidTable(t)
      ensures Valid() && table == t
      ensures customEquals == map[] && customHash == map[] && reflectedFields == map[]
    {
      table := t;
      customEquals, customHash, reflectedFields := map[], map[], map[];
    }

    /** `hasCustomEquals(c)`: answered from the cache when present,
        otherwise by walking the superclass chain; the answer is stored
        under `c` only. */
    method HasCustomEquals(c: ClassId) returns (r: bool)
      requires Valid() && c < |table|
      modifies this
      ensures Valid()
      ensures r == CustomEquals(table, c)
      ensures customEquals == old(customEquals)[c := r]
      ensures c in old(customEquals) ==> r == old(customEquals)[c] && customEquals == old(customEquals)
      ensures customHash == old(customHash) && reflectedFields == old(reflectedFields)
    {
      if c in customEquals {
        r := customEquals[c];
        assert customEquals == customEquals[c := r];
        return;
      }
      var k: ClassId := c;
      r := false;
      while k != ObjectClass
        modifies {}
        invariant k < |table|
        invariant CustomEquals(table, c) == CustomEquals(table, k)
        decreases k
      {
        CustomEqualsUnfold(table, k);
        if table[k].declaresEquals {
          r := true;
          break;
        }
        k := table[k].superclass.value;
      }
      CustomEqualsUnfold(table, k);
      customEquals := customEquals[c := r];
    }

    /** `hasCustomHashCode(c)`, the same walk for `hashCode()`. */
    method HasCustomHashCode(c: ClassId) returns (r: bool)
      requires Valid() && c < |table|
      modifies this
      ensures Valid()
      ensures r == CustomHashCode(table, c)
      ensures customHash == old(customHash)[c := r]
      ensures c in old(customHash) ==> r == old(customHash)[c] && customHash == old(customHash)
      ensures customEquals == old(customEquals) && reflectedFields == old(reflectedFields)
    {
      if c in customHash {
        r := customHash[c];
        assert customHash == customHash[c := r];
        return;
      }
      var k: ClassId := c;
      r := false;
      while k != ObjectClass
        modifies {}
        invariant k < |table|
        invariant CustomHashCode(table, c) == CustomHashCode(table, k)
        decreases k
      {
        CustomHashCodeUnfold(table, k);
        if table[k].declaresHashCode {
          r := true;
          break;
        }
        k := table[k].superclass.value;
      }
      CustomHashCodeUnfold(table, k);
      customHash := customHash[c := r];
    }

    /** `getDeepDeclaredFields(c)`: the cached list when present, otherwise
        the kept fields of `c` and all its superclasses (attempting
        `setAccessible` changes nothing the model can see). */
    method GetDeepDeclaredFields(c: ClassId) returns (fields: seq<Field>)
      requires Valid() && c < |table|
      modifies this
      ensures Valid()
      ensures fields == DeepFields(table, c)
      ensures reflectedFields == old(reflectedFields)[c := fields]
      ensures c in old(reflectedFields) ==> fields == old(reflectedFields)[c] && reflectedFields == old(reflectedFields)
      ensures customEquals == old(customEquals) && customHash == old(customHash)
    {
      if c in reflectedFields {
        fields := reflectedFields[c];
        assert reflectedFields == reflectedFields[c := fields];
        return;
      }
      fields := CollectDeepFields(table, c);
      reflectedFields := reflectedFields[c := fields];
    }
  }
}
