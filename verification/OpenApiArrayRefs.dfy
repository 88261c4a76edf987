/** Which resolved references every compatible release keeps. */
module OpenApiArrayRefs {
  import opened Options
  import opened Json
  import opened JsonPointer
  import opened OpenApiRefs
  import Compat = OpenApiCompat

  const LENGTH := "length"

  /** One read of an own property: a field of an object, an item of an array, its length. */
  function OwnRead(value: Value, token: string): Option<Value> {
    match value
    case Obj(fields) => OwnGet(fields, token)
    case Arr(items) =>
      if IndexRead(items, 0, token).Some? then IndexRead(items, 0, token)
      else if token == LENGTH then Some(Num(Finite(|items| as real)))
      else None
    case _ => None
  }

  /** The value reached by reading own properties only. */
  function ThroughOwn(value: Value, tokens: seq<string>): Option<Value>
    decreases tokens
  {
    if tokens == [] then Some(value)
    else if OwnRead(value, tokens[0]).Some? then ThroughOwn(OwnRead(value, tokens[0]).value, tokens[1..])
    else None
  }

  /** The resolver finds what own properties lead to. */
  lemma {:induction false} WalkFollowsOwn(value: Value, tokens: seq<string>)
    requires ThroughOwn(value, tokens).Some?
    ensures Walk(Some(Own(value)), tokens) == Some(Own(ThroughOwn(value, tokens).value))
    decreases tokens
  {
    if tokens != [] {
      WalkFollowsOwn(OwnRead(value, tokens[0]).value, tokens[1..]);
    }
  }

  lemma {:induction false} ObjectsAreOwn(value: Value, tokens: seq<string>)
    requires ThroughObjects(value, tokens).Some?
    ensures ThroughOwn(value, tokens) == ThroughObjects(value, tokens)
    decreases tokens
  {
    if tokens != [] {
      ObjectsAreOwn(OwnGet(value.fields, tokens[0]).value, tokens[1..]);
    }
  }

  // ----- A release that blocks a path through an array --------------------------------

  /** The fields with one value replaced. */
  function Replaced(fields: seq<Field>, key: string, value: Value): (r: seq<Field>)
    ensures |r| == |fields|
    ensures forall i | 0 <= i < |r| :: r[i].key == fields[i].key
    ensures forall i | 0 <= i < |r| :: r[i] == fields[i] || r[i].value == value
  {
    if fields == [] then []
    else if fields[0].key == key then [Field(key, value)] + fields[1..]
    else [fields[0]] + Replaced(fields[1..], key, value)
  }

  lemma {:induction false} OwnGetReplaced(fields: seq<Field>, key: string, value: Value, other: string)
    requires OwnGet(fields, key).Some?
    ensures OwnGet(Replaced(fields, key, value), other) == if other == key then Some(value) else OwnGet(fields, other)
  {
    if fields[0].key != key {
      OwnGetReplaced(fields[1..], key, value, other);
    }
  }

  /** More copies of a value than there are items, and then the items. */
  function Padded(items: seq<Value>, blocker: Value): seq<Value> {
    seq(|items| + 1, _ => blocker) + items
  }

  /** The document with the first array on the path padded. */
  function Blocked(value: Value, tokens: seq<string>, blocker: Value): Value
    decreases tokens
  {
    if value.Arr? then Arr(Padded(value.items, blocker))
    else if tokens != [] && value.Obj? && OwnGet(value.fields, tokens[0]).Some? then
      Obj(Replaced(value.fields, tokens[0], Blocked(OwnGet(value.fields, tokens[0]).value, tokens[1..], blocker)))
    else value
  }

  lemma {:induction false} BlockedIsWellFormed(value: Value, tokens: seq<string>, blocker: Value)
    requires WellFormed(value) && WellFormed(blocker)
    ensures WellFormed(Blocked(value, tokens, blocker))
    decreases tokens
  {
    if value.Obj? && tokens != [] && OwnGet(value.fields, tokens[0]).Some? {
      OwnGetIsField(value.fields, tokens[0]);
      var child := OwnGet(value.fields, tokens[0]).value;
      assert Field(tokens[0], child) in value.fields;
      BlockedIsWellFormed(child, tokens[1..], blocker);
    }
  }

  /** It satisfies the baseline. */
  lemma {:induction false} BlockedIsCompatible(value: Value, tokens: seq<string>, blocker: Value)
    requires WellFormed(value)
    ensures Compat.Compatible(value, Own(Blocked(value, tokens, blocker)))
    decreases tokens
  {
    if value.Arr? {
      PaddedIsCompatible(value.items, blocker);
    } else if tokens != [] && value.Obj? && OwnGet(value.fields, tokens[0]).Some? {
      var child := OwnGet(value.fields, tokens[0]).value;
      OwnGetIsField(value.fields, tokens[0]);
      assert Field(tokens[0], child) in value.fields;
      BlockedIsCompatible(child, tokens[1..], blocker);
      ReplacedIsCompatible(value.fields, tokens[0], Blocked(child, tokens[1..], blocker));
    } else {
      Compat.CompatibleWithItself(value);
    }
  }

  lemma PaddedIsCompatible(items: seq<Value>, blocker: Value)
    requires WellFormed(Arr(items))
    ensures Compat.Compatible(Arr(items), Own(Arr(Padded(items, blocker))))
  {
    forall e | e in items ensures Compat.MatchesSome(e, Padded(items, blocker)) {
      Compat.CompatibleWithItself(e);
      var i :| 0 <= i < |items| && items[i] == e;
      assert Padded(items, blocker)[|items| + 1 + i] == e;
    }
  }

  lemma ReplacedIsCompatible(fields: seq<Field>, key: string, value: Value)
    requires WellFormed(Obj(fields)) && OwnGet(fields, key).Some?
    requires Compat.Compatible(OwnGet(fields, key).value, Own(value))
    ensures Compat.Compatible(Obj(fields), Own(Obj(Replaced(fields, key, value))))
  {
    var current := Own(Obj(Replaced(fields, key, value)));
    forall f | f in fields
      ensures ObjectRead(current, f.key).Some? && Compat.Compatible(f.value, ObjectRead(current, f.key).value)
    {
      FieldIsOwnGet(fields, f);
      OwnGetReplaced(fields, key, value, f.key);
      Compat.CompatibleWithItself(f.value);
    }
  }

  // ----- What the resolver finds there ------------------------------------------------

  lemma {:induction false} NothingIsReachedFromNothing(tokens: seq<string>)
    ensures Walk(None, tokens) == None
    decreases tokens
  {
    if tokens != [] { NothingIsReachedFromNothing(tokens[1..]); }
  }

  lemma DecimalEndsInDigit(n: nat)
    ensures Decimal(n) != "" && '0' <= Decimal(n)[|Decimal(n)| - 1] <= '9'
  {
  }

  lemma {:induction false} LengthIsNoIndex(items: seq<Value>, from: nat)
    requires from <= |items|
    ensures IndexRead(items, from, LENGTH).None?
    decreases |items| - from
  {
    if from < |items| {
      DecimalEndsInDigit(from);
      LengthIsNoIndex(items, from + 1);
    }
  }

  /** Every index of the old array now holds a copy of the blocker. */
  lemma {:induction false} PaddedHidesItems(items: seq<Value>, blocker: Value, from: nat, token: string)
    requires from <= |items| && IndexRead(items, from, token).Some?
    ensures IndexRead(Padded(items, blocker), from, token) == Some(blocker)
    decreases |items| - from
  {
    assert Padded(items, blocker)[from] == blocker;
    if Decimal(from) != token {
      PaddedHidesItems(items, blocker, from + 1, token);
    }
  }

  /** A leaf that the target does not match. */
  function Blocker(target: Value): (b: Value)
    ensures b == Null || b.Bool?
    ensures !Compat.Compatible(target, Own(b))
  {
    if target == Null then Bool(true) else Null
  }

  /** The reference is kept: it still resolves, to a value compatible with its old target. */
  ghost predicate Keeps(target: Value, current: Value, tokens: seq<string>) {
    Walk(Some(Own(current)), tokens).Some? && Compat.Compatible(target, Walk(Some(Own(current)), tokens).value)
  }

  lemma {:induction false} BlockedDoesNotKeep(value: Value, tokens: seq<string>)
    requires ThroughOwn(value, tokens).Some? && ThroughObjects(value, tokens).None?
    ensures var target := ThroughOwn(value, tokens).value;
            !Keeps(target, Blocked(value, tokens, Blocker(target)), tokens)
    decreases tokens
  {
    var target := ThroughOwn(value, tokens).value;
    if value.Arr? {
      PaddedDoesNotKeep(value.items, tokens, target);
    } else {
      var child := OwnGet(value.fields, tokens[0]).value;
      var blocked := Blocked(child, tokens[1..], Blocker(target));
      BlockedDoesNotKeep(child, tokens[1..]);
      OwnGetReplaced(value.fields, tokens[0], blocked, tokens[0]);
      assert Read(Some(Own(Blocked(value, tokens, Blocker(target)))), tokens[0]) == Some(Own(blocked));
    }
  }

  lemma PaddedDoesNotKeep(items: seq<Value>, tokens: seq<string>, target: Value)
    requires tokens != [] && ThroughOwn(Arr(items), tokens) == Some(target)
    ensures !Keeps(target, Arr(Padded(items, Blocker(target))), tokens)
  {
    var b := Blocker(target);
    var padded := Own(Arr(Padded(items, b)));
    if IndexRead(items, 0, tokens[0]).Some? {
      PaddedHidesItems(items, b, 0, tokens[0]);
      assert Read(Some(padded), tokens[0]) == Some(Own(b));
      LeafDoesNotLead(b, target, tokens[1..]);
    } else {
      assert tokens[1..] == [];
      LengthIsNoIndex(Padded(items, b), 0);
      assert Read(Some(padded), LENGTH) == Some(Own(Num(Finite(|Padded(items, b)| as real))));
      assert Walk(Read(Some(padded), LENGTH), []) == Read(Some(padded), LENGTH);
    }
  }

  lemma LeafDoesNotLead(leaf: Value, target: Value, tokens: seq<string>)
    requires (leaf == Null || leaf.Bool?) && !Compat.Compatible(target, Own(leaf))
    ensures !(Walk(Some(Own(leaf)), tokens).Some? && Compat.Compatible(target, Walk(Some(Own(leaf)), tokens).value))
  {
    if tokens != [] { NothingIsReachedFromNothing(tokens[1..]); }
  }

  // ----- The exact condition ----------------------------------------------------------

  /** A reference that resolves through own properties is kept by every compatible release if and
      only if it passes through objects alone. One that passes through an array is not safe,
      because items are matched by existence, not by index. */
  lemma KeptIffThroughObjects(baseline: Value, tokens: seq<string>)
    requires WellFormed(baseline) && ThroughOwn(baseline, tokens).Some?
    ensures ThroughObjects(baseline, tokens).Some? <==>
            forall c: Value :: WellFormed(c) && Compat.Compatible(baseline, Own(c)) ==>
                                 Keeps(ThroughOwn(baseline, tokens).value, c, tokens)
  {
    var target := ThroughOwn(baseline, tokens).value;
    if ThroughObjects(baseline, tokens).Some? {
      ObjectsAreOwn(baseline, tokens);
      forall c: Value | WellFormed(c) && Compat.Compatible(baseline, Own(c)) ensures Keeps(target, c, tokens) {
        CompatibleKeepsTargets(baseline, Own(c), tokens);
      }
    } else {
      var c := Blocked(baseline, tokens, Blocker(target));
      BlockedIsWellFormed(baseline, tokens, Blocker(target));
      BlockedIsCompatible(baseline, tokens, Blocker(target));
      BlockedDoesNotKeep(baseline, tokens);
    }
  }

  /** References are the `$ref` strings of objects; those that do not start with `#/` lead nowhere,
      and one that spells a list of keys leads where the keys do. */
  lemma PointerResolves(document: Value, keys: seq<string>, ref: string)
    requires keys != []
    ensures ThroughOwn(document, keys).Some? ==>
              ResolveRef(document, Pointer(keys)) == Some(Own(ThroughOwn(document, keys).value))
    ensures !("#/" <= ref) ==> ResolveRef(document, ref).None?
  {
    TokensInvertPointer(keys);
    if ThroughOwn(document, keys).Some? { WalkFollowsOwn(document, keys); }
  }

  lemma RefIsString(value: Value, ref: string)
    ensures RefOf(value) == Some(ref) <==> value.Obj? && OwnGet(value.fields, "$ref") == Some(Str(ref))
  {
  }
}
