/** For which baselines checking release after release is enough. */
module OpenApiTransitive {
  import opened Options
  import opened Json
  import opened OpenApiCompat

  /** The document without the fields that the built-in prototype satisfies: the least that every
      accepted release has on its own. */
  function Stripped(v: Value): (r: Value)
    decreases v, 1
  {
    match v
    case Arr(items) => Arr(StrippedItems(items))
    case Obj(fields) => Obj(StrippedFields(fields))
    case _ => v
  }

  function StrippedItems(items: seq<Value>): (r: seq<Value>)
    ensures |r| == |items| && forall i | 0 <= i < |r| :: r[i] == Stripped(items[i])
    decreases items, 0
  {
    if items == [] then [] else [Stripped(items[0])] + StrippedItems(items[1..])
  }

  function StrippedFields(fields: seq<Field>): (r: seq<Field>)
    ensures |r| <= |fields|
    ensures forall g | g in r :: exists f | f in fields :: !IsInherited(f) && g == Field(f.key, Stripped(f.value))
    decreases fields, 0
  {
    if fields == [] then []
    else (if IsInherited(fields[0]) then [] else [Field(fields[0].key, Stripped(fields[0].value))])
         + StrippedFields(fields[1..])
  }

  /** A field that is kept is found under its key, one that is not leaves nothing there. */
  lemma {:induction false} StrippedGet(fields: seq<Field>, f: Field)
    requires UniqueKeys(fields) && f in fields
    ensures OwnGet(StrippedFields(fields), f.key) == if IsInherited(f) then None else Some(Stripped(f.value))
  {
    var stripped := StrippedFields(fields);
    if fields[0] == f {
      if IsInherited(f) {
        assert stripped == StrippedFields(fields[1..]);
        OwnGetIsField(stripped, f.key);
        forall g | g in stripped ensures g.key != f.key {
          var h :| h in fields[1..] && g == Field(h.key, Stripped(h.value));
          var i :| 1 <= i < |fields| && fields[i] == h;
        }
      }
    } else {
      var i :| 1 <= i < |fields| && fields[i] == f;
      assert fields[1..][i - 1] == f && fields[0].key != fields[i].key;
      StrippedGet(fields[1..], f);
      if !IsInherited(fields[0]) { assert stripped[1..] == StrippedFields(fields[1..]); }
    }
  }

  lemma {:induction false} StrippedIsWellFormed(v: Value)
    requires WellFormed(v)
    ensures WellFormed(Stripped(v))
    decreases v, 1
  {
    match v
    case Arr(items) =>
      forall x | x in StrippedItems(items) ensures WellFormed(x) {
        var i :| 0 <= i < |items| && StrippedItems(items)[i] == Stripped(items[i]) == x;
        StrippedIsWellFormed(items[i]);
      }
    case Obj(fields) =>
      forall f | f in fields ensures WellFormed(Stripped(f.value)) { StrippedIsWellFormed(f.value); }
      StrippedKeysAreUnique(fields);
    case _ =>
  }

  lemma {:induction false} StrippedKeysAreUnique(fields: seq<Field>)
    requires UniqueKeys(fields)
    ensures UniqueKeys(StrippedFields(fields))
  {
    if fields != [] {
      StrippedKeysAreUnique(fields[1..]);
      forall g | g in StrippedFields(fields[1..]) ensures g.key != fields[0].key {
        var f :| f in fields[1..] && g == Field(f.key, Stripped(f.value));
        var i :| 1 <= i < |fields| && fields[i] == f;
      }
    }
  }

  /** The stripped document is an accepted release. */
  lemma {:induction false} CompatibleWithStripped(v: Value)
    requires WellFormed(v)
    ensures Compatible(v, Own(Stripped(v)))
  {
    match v
    case Arr(items) =>
      forall e | e in items ensures MatchesSome(e, StrippedItems(items)) {
        var i :| 0 <= i < |items| && items[i] == e;
        CompatibleWithStripped(e);
        assert Compatible(e, Own(StrippedItems(items)[i]));
      }
    case Obj(fields) =>
      var stripped := Own(Stripped(v));
      forall f | f in fields
        ensures ObjectRead(stripped, f.key).Some? && Compatible(f.value, ObjectRead(stripped, f.key).value)
      {
        StrippedGet(fields, f);
        CompatibleWithStripped(f.value);
      }
    case _ =>
  }

  /** Every accepted release has the stripped document on its own. */
  lemma {:induction false} StrippedIsOwn(a: Value, b: Value)
    requires Compatible(a, Own(b))
    ensures OwnCompatible(Stripped(a), b)
  {
    match a
    case Arr(items) =>
      forall e | e in StrippedItems(items) ensures OwnMatchesSome(e, b.items) {
        var i :| 0 <= i < |items| && e == StrippedItems(items)[i] == Stripped(items[i]);
        assert items[i] in items && MatchesSome(items[i], b.items);
        var j :| 0 <= j < |b.items| && Compatible(items[i], Own(b.items[j]));
        StrippedIsOwn(items[i], b.items[j]);
      }
    case Obj(fields) =>
      forall g | g in StrippedFields(fields)
        ensures OwnGet(b.fields, g.key).Some? && OwnCompatible(g.value, OwnGet(b.fields, g.key).value)
      {
        var f :| f in fields && !IsInherited(f) && g == Field(f.key, Stripped(f.value));
        assert !Compatible(f.value, Function);
        StrippedIsOwn(f.value, OwnGet(b.fields, f.key).value);
      }
    case _ =>
  }

  lemma {:induction false} OwnComposes(a: Value, b: Value, c: Value)
    requires OwnCompatible(a, b) && OwnCompatible(b, c)
    ensures OwnCompatible(a, c)
  {
    match a
    case Arr(items) =>
      forall e | e in items ensures OwnMatchesSome(e, c.items) {
        assert OwnMatchesSome(e, b.items);
        var j :| 0 <= j < |b.items| && OwnCompatible(e, b.items[j]);
        assert b.items[j] in b.items;
        var i :| 0 <= i < |c.items| && OwnCompatible(b.items[j], c.items[i]);
        OwnComposes(e, b.items[j], c.items[i]);
      }
    case Obj(fields) =>
      forall f | f in fields
        ensures OwnGet(c.fields, f.key).Some? && OwnCompatible(f.value, OwnGet(c.fields, f.key).value)
      {
        OwnGetIsField(b.fields, f.key);
        var g := Field(f.key, OwnGet(b.fields, f.key).value);
        assert g in b.fields;
        OwnComposes(f.value, g.value, OwnGet(c.fields, f.key).value);
      }
    case _ =>
  }

  // ----- The exact condition -------------------------------------------------------

  /** What the prototype satisfies in the baseline is asked for again by the rest of it. */
  predicate IsCovered(a: Value) {
    OwnCompatible(a, Stripped(a))
  }

  /** Exactly these baselines are only ever accepted on own fields. */
  lemma AcceptedOnOwnFieldsIffCovered(a: Value)
    requires WellFormed(a)
    ensures IsCovered(a) <==> forall b | WellFormed(b) && Compatible(a, Own(b)) :: OwnCompatible(a, b)
  {
    StrippedIsWellFormed(a);
    CompatibleWithStripped(a);
    if IsCovered(a) {
      forall b | WellFormed(b) && Compatible(a, Own(b)) ensures OwnCompatible(a, b) {
        StrippedIsOwn(a, b);
        OwnComposes(a, Stripped(a), b);
      }
    }
  }

  /** And for exactly these, checking two consecutive releases is as good as checking the first
      against the last. */
  lemma TransitiveIffCovered(a: Value)
    requires WellFormed(a)
    ensures IsCovered(a) <==>
            forall b, c | && WellFormed(b) && WellFormed(c)
                          && Compatible(a, Own(b)) && Compatible(b, Own(c)) :: Compatible(a, Own(c))
  {
    AcceptedOnOwnFieldsIffCovered(a);
    if IsCovered(a) {
      forall b, c | && WellFormed(b) && WellFormed(c)
                    && Compatible(a, Own(b)) && Compatible(b, Own(c))
        ensures Compatible(a, Own(c))
      {
        OwnCompatibleComposes(a, b, Own(c));
      }
    } else {
      StrippedIsWellFormed(a);
      CompatibleWithStripped(a);
      SurvivesEveryLaterVersionIffOwn(a, Stripped(a));
    }
  }

  /** Nothing is stripped exactly when no field is inherited; such a baseline is covered by itself. */
  lemma {:induction false} NothingToStrip(v: Value)
    ensures NoInheritedField(v) <==> Stripped(v) == v
    decreases v, 1
  {
    match v
    case Arr(items) =>
      forall i | 0 <= i < |items|
        ensures NoInheritedField(items[i]) <==> StrippedItems(items)[i] == items[i]
      {
        NothingToStrip(items[i]);
      }
      if forall i | 0 <= i < |items| :: StrippedItems(items)[i] == items[i] {
        assert StrippedItems(items) == items;
      }
    case Obj(fields) => NoFieldToStrip(fields);
    case _ =>
  }

  lemma {:induction false} NoFieldToStrip(fields: seq<Field>)
    ensures (forall f | f in fields :: !IsInherited(f) && NoInheritedField(f.value)) <==>
            StrippedFields(fields) == fields
    decreases fields, 0
  {
    if fields != [] {
      var f, rest := fields[0], fields[1..];
      NothingToStrip(f.value);
      NoFieldToStrip(rest);
      assert fields == [f] + rest;
      assert forall g :: g in fields <==> g == f || g in rest;
      if !IsInherited(f) {
        assert StrippedFields(fields)[0] == Field(f.key, Stripped(f.value));
        assert StrippedFields(fields)[1..] == StrippedFields(rest);
      }
    }
  }

  lemma {:induction false} OwnCompatibleWithItself(v: Value)
    requires WellFormed(v)
    ensures OwnCompatible(v, v)
  {
    match v
    case Arr(items) =>
      forall e | e in items ensures OwnMatchesSome(e, items) {
        var i :| 0 <= i < |items| && items[i] == e;
        OwnCompatibleWithItself(items[i]);
      }
    case Obj(fields) =>
      forall f | f in fields ensures OwnGet(fields, f.key) == Some(f.value) && OwnCompatible(f.value, f.value) {
        FieldIsOwnGet(fields, f);
        OwnCompatibleWithItself(f.value);
      }
    case _ =>
  }

  /** A baseline may be covered although a field of it is inherited: another item asks for more. */
  lemma CoveredByAnotherItem(less: Value, more: Value)
    requires WellFormed(more) && NoInheritedField(more) && OwnCompatible(less, more)
    ensures IsCovered(Arr([less, more]))
  {
    NothingToStrip(more);
    OwnCompatibleWithItself(more);
    var stripped := StrippedItems([less, more]);
    assert stripped[1] == more;
    forall e | e in [less, more] ensures OwnMatchesSome(e, stripped) {
      assert OwnCompatible(e, stripped[1]);
    }
  }
}
