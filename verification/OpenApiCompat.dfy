/** The breaking-change finder: does the current contract still satisfy the baseline? */
module OpenApiCompat {
  import opened Options
  import opened Json

  datatype Problem =
    | NotAnArray
    | LostItem(expected: Value)
    | NotAnObject
    | Missing
    | Changed(expected: Value, actual: Js)

  datatype Change = Change(path: string, problem: Problem)

  function FindBreaking(baseline: Value, current: Js, path: string): seq<Change>
    decreases baseline, 1
  {
    match baseline
    case Arr(items) =>
      if !IsArray(current) then [Change(path, NotAnArray)] else BreakingItems(items, current, path)
    case Obj(fields) =>
      if !IsObject(current) then [Change(path, NotAnObject)] else BreakingFields(fields, current, path)
    case _ =>
      if current == Own(baseline) then [] else [Change(path, Changed(baseline, current))]
  }

  function BreakingItems(expected: seq<Value>, current: Js, path: string): seq<Change>
    requires IsArray(current)
    decreases expected, 0
  {
    if expected == [] then [] else
    (if exists i :: 0 <= i < |Items(current)| && FindBreaking(expected[0], Own(Items(current)[i]), path) == []
     then []
     else [Change(path, LostItem(expected[0]))])
    + BreakingItems(expected[1..], current, path)
  }

  function BreakingFields(expected: seq<Field>, current: Js, path: string): seq<Change>
    requires IsObject(current)
    decreases expected, 0
  {
    if expected == [] then [] else
    (var f := expected[0];
     var inside := path + "." + f.key;
     match ObjectRead(current, f.key)
     case Some(actual) => FindBreaking(f.value, actual, inside)
     case None => [Change(inside, Missing)])
    + BreakingFields(expected[1..], current, path)
  }

  // ----- What an empty report means ------------------------------------------------

  predicate Compatible(baseline: Value, current: Js)
    decreases baseline, 0
  {
    match baseline
    case Arr(items) =>
      IsArray(current) && forall e | e in items :: MatchesSome(e, Items(current))
    case Obj(fields) =>
      IsObject(current) &&
      forall f | f in fields ::
        ObjectRead(current, f.key).Some? && Compatible(f.value, ObjectRead(current, f.key).value)
    case _ => current == Own(baseline)
  }

  predicate MatchesSome(expected: Value, items: seq<Value>)
    decreases expected, 1
  {
    exists i :: 0 <= i < |items| && Compatible(expected, Own(items[i]))
  }

  /** The report is empty exactly when the two documents are compatible, so whether it is
      empty does not depend on the path it was started with. */
  lemma {:induction false} EmptyReportIffCompatible(baseline: Value, current: Js, path: string)
    ensures FindBreaking(baseline, current, path) == [] <==> Compatible(baseline, current)
    decreases baseline, 1
  {
    match baseline
    case Arr(items) => if IsArray(current) { EmptyItemsReport(items, current, path); }
    case Obj(fields) => if IsObject(current) { EmptyFieldsReport(fields, current, path); }
    case _ =>
  }

  lemma {:induction false} EmptyItemsReport(expected: seq<Value>, current: Js, path: string)
    requires IsArray(current)
    ensures BreakingItems(expected, current, path) == [] <==>
            forall e | e in expected :: MatchesSome(e, Items(current))
    decreases expected, 0
  {
    if expected != [] {
      var e, items := expected[0], Items(current);
      forall i | 0 <= i < |items|
        ensures FindBreaking(e, Own(items[i]), path) == [] <==> Compatible(e, Own(items[i]))
      {
        EmptyReportIffCompatible(e, Own(items[i]), path);
      }
      assert MatchesSome(e, items) <==>
             exists i :: 0 <= i < |items| && FindBreaking(e, Own(items[i]), path) == [];
      EmptyItemsReport(expected[1..], current, path);
      assert forall e :: e in expected <==> e == expected[0] || e in expected[1..];
    }
  }

  lemma {:induction false} EmptyFieldsReport(expected: seq<Field>, current: Js, path: string)
    requires IsObject(current)
    ensures BreakingFields(expected, current, path) == [] <==>
            forall f | f in expected ::
              ObjectRead(current, f.key).Some? && Compatible(f.value, ObjectRead(current, f.key).value)
    decreases expected, 0
  {
    if expected != [] {
      var f := expected[0];
      if ObjectRead(current, f.key).Some? {
        EmptyReportIffCompatible(f.value, ObjectRead(current, f.key).value, path + "." + f.key);
      }
      EmptyFieldsReport(expected[1..], current, path);
      assert forall g :: g in expected <==> g == f || g in expected[1..];
    }
  }

  // ----- Compatibility as an order -------------------------------------------------

  lemma {:induction false} CompatibleWithItself(v: Value)
    requires WellFormed(v)
    ensures Compatible(v, Own(v))
  {
    match v
    case Arr(items) =>
      forall e | e in items ensures MatchesSome(e, items) {
        CompatibleWithItself(e);
        var i :| 0 <= i < |items| && items[i] == e;
        assert Compatible(e, Own(items[i]));
      }
    case Obj(fields) =>
      forall f | f in fields
        ensures ObjectRead(Own(v), f.key) == Some(Own(f.value)) && Compatible(f.value, Own(f.value))
      {
        FieldIsOwnGet(fields, f);
        CompatibleWithItself(f.value);
      }
    case _ =>
  }

  /** Compatibility that never leans on an inherited property. */
  predicate OwnCompatible(baseline: Value, current: Value)
    decreases baseline, 0
  {
    match baseline
    case Arr(items) =>
      current.Arr? && forall e | e in items :: OwnMatchesSome(e, current.items)
    case Obj(fields) =>
      current.Obj? &&
      forall f | f in fields ::
        OwnGet(current.fields, f.key).Some? && OwnCompatible(f.value, OwnGet(current.fields, f.key).value)
    case _ => current == baseline
  }

  predicate OwnMatchesSome(expected: Value, items: seq<Value>)
    decreases expected, 1
  {
    exists i :: 0 <= i < |items| && OwnCompatible(expected, items[i])
  }

  lemma {:induction false} OwnCompatibleIsCompatible(a: Value, b: Value)
    requires OwnCompatible(a, b)
    ensures Compatible(a, Own(b))
  {
    match a
    case Arr(items) =>
      forall e | e in items ensures MatchesSome(e, b.items) {
        var i :| 0 <= i < |b.items| && OwnCompatible(e, b.items[i]);
        OwnCompatibleIsCompatible(e, b.items[i]);
      }
    case Obj(fields) =>
      forall f | f in fields {
        OwnCompatibleIsCompatible(f.value, OwnGet(b.fields, f.key).value);
      }
    case _ =>
  }

  lemma {:induction false} OwnCompatibleComposes(a: Value, b: Value, c: Js)
    requires OwnCompatible(a, b) && Compatible(b, c)
    ensures Compatible(a, c)
  {
    match a
    case Arr(items) =>
      forall e | e in items ensures MatchesSome(e, Items(c)) {
        var j :| 0 <= j < |b.items| && OwnCompatible(e, b.items[j]);
        assert b.items[j] in b.items;
        var i :| 0 <= i < |Items(c)| && Compatible(b.items[j], Own(Items(c)[i]));
        OwnCompatibleComposes(e, b.items[j], Own(Items(c)[i]));
      }
    case Obj(fields) =>
      forall f | f in fields
        ensures ObjectRead(c, f.key).Some? && Compatible(f.value, ObjectRead(c, f.key).value)
      {
        OwnGetIsField(b.fields, f.key);
        var g := Field(f.key, OwnGet(b.fields, f.key).value);
        assert g in b.fields;
        OwnCompatibleComposes(f.value, g.value, ObjectRead(c, f.key).value);
      }
    case _ =>
  }

  /** The built-in prototype already satisfies the field. */
  predicate IsInherited(f: Field) {
    f.key == PROTO && Compatible(f.value, ObjectPrototype)
  }

  /** No object anywhere in the document has such a field. */
  predicate NoInheritedField(v: Value) {
    match v
    case Arr(items) => forall x | x in items :: NoInheritedField(x)
    case Obj(fields) =>
      forall f | f in fields ::
        !IsInherited(f) && NoInheritedField(f.value)
    case _ => true
  }

  /** Only `{}` and `{"__proto__": null}` are satisfied by the built-in prototype. */
  lemma WhatThePrototypeSatisfies(v: Value)
    requires WellFormed(v)
    ensures Compatible(v, ObjectPrototype) <==> v == Obj([]) || v == Obj([Field(PROTO, Null)])
  {
    if v.Obj? && Compatible(v, ObjectPrototype) {
      forall i | 0 <= i < |v.fields| ensures v.fields[i] == Field(PROTO, Null) {
        var f := v.fields[i];
        assert f in v.fields && Compatible(f.value, ObjectRead(ObjectPrototype, f.key).value);
        assert !Compatible(f.value, Function);
        assert f.value == Null;
      }
      assert |v.fields| >= 2 ==> v.fields[0].key == v.fields[1].key;
      assert |v.fields| == 1 ==> v.fields == [Field(PROTO, Null)];
    }
  }

  lemma {:induction false} NoInheritedFieldNeedsNoInheritance(a: Value, b: Value)
    requires NoInheritedField(a) && Compatible(a, Own(b))
    ensures OwnCompatible(a, b)
  {
    match a
    case Arr(items) =>
      forall e | e in items ensures OwnMatchesSome(e, b.items) {
        var i :| 0 <= i < |b.items| && Compatible(e, Own(b.items[i]));
        NoInheritedFieldNeedsNoInheritance(e, b.items[i]);
      }
    case Obj(fields) =>
      forall f | f in fields
        ensures OwnGet(b.fields, f.key).Some? && OwnCompatible(f.value, OwnGet(b.fields, f.key).value)
      {
        assert !Compatible(f.value, Function);
        NoInheritedFieldNeedsNoInheritance(f.value, OwnGet(b.fields, f.key).value);
      }
    case _ =>
  }

  /** Checking two consecutive releases is as good as checking the first against the last,
      for every baseline without a field that the prototype satisfies. */
  lemma CompatibleIsTransitive(a: Value, b: Value, c: Value)
    requires NoInheritedField(a)
    requires Compatible(a, Own(b)) && Compatible(b, Own(c))
    ensures Compatible(a, Own(c))
  {
    NoInheritedFieldNeedsNoInheritance(a, b);
    OwnCompatibleComposes(a, b, Own(c));
  }

  // ----- Where transitivity fails --------------------------------------------------

  /** With a `__proto__` field the `in` test is met by what every object inherits: the field
      is lost in the second version unnoticed, and the third may give it any value. */
  lemma TransitivityFails() returns (a: Value, b: Value, c: Value)
    ensures WellFormed(a) && WellFormed(b) && WellFormed(c)
    ensures Compatible(a, Own(b)) && Compatible(b, Own(c)) && !Compatible(a, Own(c))
  {
    a, b, c := Obj([Field(PROTO, Obj([]))]), Obj([]), Obj([Field(PROTO, Bool(true))]);
    assert a.fields[0] in a.fields;
    assert ObjectRead(Own(b), PROTO) == Some(ObjectPrototype);
    assert ObjectRead(Own(c), PROTO) == Some(Own(Bool(true)));
  }

  predicate NumbersBelow(v: Value, bound: real) {
    match v
    case Num(n) => n.Finite? ==> n.value < bound
    case Arr(items) => forall x | x in items :: NumbersBelow(x, bound)
    case Obj(fields) => forall f | f in fields :: NumbersBelow(f.value, bound)
    case _ => true
  }

  lemma {:induction false} NumbersBelowLarger(v: Value, low: real, high: real)
    requires NumbersBelow(v, low) && low <= high
    ensures NumbersBelow(v, high)
  {
    match v
    case Arr(items) => forall x | x in items { NumbersBelowLarger(x, low, high); }
    case Obj(fields) => forall f | f in fields { NumbersBelowLarger(f.value, low, high); }
    case _ =>
  }

  lemma {:induction false} NumbersAreBounded(v: Value) returns (bound: real)
    ensures NumbersBelow(v, bound)
    decreases v, 1
  {
    bound := 0.0;
    match v
    case Num(n) => if n.Finite? { bound := n.value + 1.0; }
    case Arr(items) => bound := ItemNumbersAreBounded(items);
    case Obj(fields) => bound := FieldNumbersAreBounded(fields);
    case _ =>
  }

  lemma {:induction false} ItemNumbersAreBounded(items: seq<Value>) returns (bound: real)
    ensures forall x | x in items :: NumbersBelow(x, bound)
    decreases items, 0
  {
    bound := 0.0;
    if items != [] {
      var first := NumbersAreBounded(items[0]);
      var rest := ItemNumbersAreBounded(items[1..]);
      bound := if first < rest then rest else first;
      forall x | x in items ensures NumbersBelow(x, bound) {
        NumbersBelowLarger(x, if x == items[0] then first else rest, bound);
      }
    }
  }

  lemma {:induction false} FieldNumbersAreBounded(fields: seq<Field>) returns (bound: real)
    ensures forall f | f in fields :: NumbersBelow(f.value, bound)
    decreases fields, 0
  {
    bound := 0.0;
    if fields != [] {
      var first := NumbersAreBounded(fields[0].value);
      var rest := FieldNumbersAreBounded(fields[1..]);
      bound := if first < rest then rest else first;
      forall f | f in fields ensures NumbersBelow(f.value, bound) {
        NumbersBelowLarger(f.value, if f == fields[0] then first else rest, bound);
      }
    }
  }

  /** The document with a `__proto__` field of value `n` added to every object without one. */
  function Pinned(v: Value, n: real): (p: Value)
    decreases v, 1
  {
    match v
    case Arr(items) => Arr(PinnedItems(items, n))
    case Obj(fields) =>
      Obj(PinnedFields(fields, n)
          + (if OwnGet(fields, PROTO).None? then [Field(PROTO, Num(Finite(n)))] else []))
    case _ => v
  }

  function PinnedItems(items: seq<Value>, n: real): (p: seq<Value>)
    ensures |p| == |items| && forall i | 0 <= i < |p| :: p[i] == Pinned(items[i], n)
    decreases items, 0
  {
    if items == [] then [] else [Pinned(items[0], n)] + PinnedItems(items[1..], n)
  }

  function PinnedFields(fields: seq<Field>, n: real): (p: seq<Field>)
    ensures |p| == |fields|
    ensures forall i | 0 <= i < |p| :: p[i] == Field(fields[i].key, Pinned(fields[i].value, n))
    decreases fields, 0
  {
    if fields == [] then []
    else [Field(fields[0].key, Pinned(fields[0].value, n))] + PinnedFields(fields[1..], n)
  }

  lemma {:induction false} OwnGetPinned(fields: seq<Field>, more: seq<Field>, key: string, n: real)
    ensures OwnGet(PinnedFields(fields, n) + more, key) ==
            if OwnGet(fields, key).Some? then Some(Pinned(OwnGet(fields, key).value, n)) else OwnGet(more, key)
  {
    var all := PinnedFields(fields, n) + more;
    if fields == [] {
      assert all == more;
    } else {
      assert all[1..] == PinnedFields(fields[1..], n) + more;
      if fields[0].key != key { OwnGetPinned(fields[1..], more, key, n); }
    }
  }

  /** What a field of a pinned object reads as. */
  lemma ObjectReadPinned(fields: seq<Field>, key: string, n: real)
    ensures ObjectRead(Own(Pinned(Obj(fields), n)), key) ==
            if OwnGet(fields, key).Some? then Some(Own(Pinned(OwnGet(fields, key).value, n)))
            else if key == PROTO then Some(Own(Num(Finite(n))))
            else if key in OBJECT_METHODS then Some(Function)
            else None
  {
    var more := if OwnGet(fields, PROTO).None? then [Field(PROTO, Num(Finite(n)))] else [];
    OwnGetPinned(fields, more, key, n);
    assert more != [] ==> more[1..] == [];
    assert OwnGet([], key) == None;
  }

  lemma {:induction false} PinnedIsWellFormed(v: Value, n: real)
    requires WellFormed(v)
    ensures WellFormed(Pinned(v, n))
  {
    match v
    case Arr(items) =>
      forall x | x in PinnedItems(items, n) ensures WellFormed(x) {
        var i :| 0 <= i < |items| && PinnedItems(items, n)[i] == x;
        PinnedIsWellFormed(items[i], n);
      }
    case Obj(fields) =>
      var p := PinnedFields(fields, n);
      forall f | f in p ensures WellFormed(f.value) {
        var i :| 0 <= i < |p| && p[i] == f;
        assert fields[i] in fields;
        PinnedIsWellFormed(fields[i].value, n);
      }
      OwnGetIsField(fields, PROTO);
      forall i, j | 0 <= i < j < |Pinned(v, n).fields|
        ensures Pinned(v, n).fields[i].key != Pinned(v, n).fields[j].key
      {
        assert fields[i] in fields;
      }
    case _ =>
  }

  lemma {:induction false} CompatibleWithPinned(v: Value, n: real)
    requires WellFormed(v)
    ensures Compatible(v, Own(Pinned(v, n)))
  {
    match v
    case Arr(items) =>
      var p := PinnedItems(items, n);
      forall e | e in items ensures MatchesSome(e, p) {
        var i :| 0 <= i < |items| && items[i] == e;
        CompatibleWithPinned(e, n);
        assert Compatible(e, Own(p[i]));
      }
    case Obj(fields) =>
      forall f | f in fields
        ensures ObjectRead(Own(Pinned(v, n)), f.key).Some?
        ensures Compatible(f.value, ObjectRead(Own(Pinned(v, n)), f.key).value)
      {
        FieldIsOwnGet(fields, f);
        ObjectReadPinned(fields, f.key, n);
        CompatibleWithPinned(f.value, n);
      }
    case _ =>
  }

  lemma {:induction false} PinnedExposesInheritance(a: Value, b: Value, n: real)
    requires NumbersBelow(a, n) && Compatible(a, Own(Pinned(b, n)))
    ensures OwnCompatible(a, b)
  {
    match a
    case Arr(items) =>
      var p := PinnedItems(b.items, n);
      forall e | e in items ensures OwnMatchesSome(e, b.items) {
        var i :| 0 <= i < |p| && Compatible(e, Own(p[i]));
        PinnedExposesInheritance(e, b.items[i], n);
      }
    case Obj(fields) =>
      forall f | f in fields
        ensures OwnGet(b.fields, f.key).Some? && OwnCompatible(f.value, OwnGet(b.fields, f.key).value)
      {
        ObjectReadPinned(b.fields, f.key, n);
        assert !Compatible(f.value, Function);
        assert !Compatible(f.value, Own(Num(Finite(n))));
        PinnedExposesInheritance(f.value, OwnGet(b.fields, f.key).value, n);
      }
    case _ =>
  }

  /** The exact condition: an accepted version stays accepted through every later compatible
      version if and only if it was accepted on its own fields alone. */
  lemma SurvivesEveryLaterVersionIffOwn(a: Value, b: Value)
    requires WellFormed(b)
    ensures OwnCompatible(a, b) <==>
            forall c: Value :: WellFormed(c) && Compatible(b, Own(c)) ==> Compatible(a, Own(c))
  {
    if OwnCompatible(a, b) {
      forall c: Value | WellFormed(c) && Compatible(b, Own(c)) ensures Compatible(a, Own(c)) {
        OwnCompatibleComposes(a, b, Own(c));
      }
    }
    if forall c: Value :: WellFormed(c) && Compatible(b, Own(c)) ==> Compatible(a, Own(c)) {
      var n := NumbersAreBounded(a);
      PinnedIsWellFormed(b, n);
      CompatibleWithPinned(b, n);
      PinnedExposesInheritance(a, b, n);
    }
  }
}
