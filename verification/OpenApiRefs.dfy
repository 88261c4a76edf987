/** The unresolved-reference finder, and what a compatible release does to references. */
module OpenApiRefs {
  import opened Options
  import opened Json
  import opened JsonPointer
  import Compat = OpenApiCompat

  const REF := "$ref"

  /** One property read of the resolver; anything but an object or array gives `undefined`. */
  function Read(value: Option<Js>, token: string): Option<Js> {
    if value.Some? && IsObject(value.value) then ObjectRead(value.value, token)
    else if value.Some? && IsArray(value.value) then ArrayRead(value.value, token)
    else None
  }

  function Walk(value: Option<Js>, tokens: seq<string>): Option<Js>
    decreases tokens
  {
    if tokens == [] then value else Walk(Read(value, tokens[0]), tokens[1..])
  }

  function ResolveRef(document: Value, ref: string): Option<Js> {
    if IsLocal(ref) then Walk(Some(Own(document)), Tokens(ref)) else None
  }

  // ----- The finder ----------------------------------------------------------------

  datatype Unresolved = Unresolved(path: string, ref: string)

  /** `value.$ref` when it is a string. */
  function RefOf(value: Value): Option<string> {
    if value.Obj? && OwnGet(value.fields, REF).Some? && OwnGet(value.fields, REF).value.Str?
    then Some(OwnGet(value.fields, REF).value.s)
    else None
  }

  function FindUnresolved(document: Value): seq<Unresolved> {
    Visit(document, document, "$")
  }

  function Visit(document: Value, value: Value, path: string): seq<Unresolved>
    decreases value, 1
  {
    match value
    case Arr(items) => VisitItems(document, items, 0, path)
    case Obj(fields) =>
      (if RefOf(value).Some? && ResolveRef(document, RefOf(value).value).None?
       then [Unresolved(path, RefOf(value).value)]
       else [])
      + VisitFields(document, fields, path)
    case _ => []
  }

  /** `items` are the items of an array from index `from` on. */
  function VisitItems(document: Value, items: seq<Value>, from: nat, path: string): seq<Unresolved>
    decreases items, 0
  {
    if items == [] then []
    else Visit(document, items[0], path + "[" + Decimal(from) + "]")
         + VisitItems(document, items[1..], from + 1, path)
  }

  function VisitFields(document: Value, fields: seq<Field>, path: string): seq<Unresolved>
    decreases fields, 0
  {
    if fields == [] then []
    else Visit(document, fields[0].value, path + "." + fields[0].key)
         + VisitFields(document, fields[1..], path)
  }

  // ----- Positions: an independent account of "everywhere in the document" ----------

  datatype Step = Key(key: string) | Index(index: nat)

  function At(value: Value, steps: seq<Step>): Option<Value>
    decreases steps
  {
    if steps == [] then Some(value)
    else match steps[0]
      case Key(k) =>
        if value.Obj? && OwnGet(value.fields, k).Some? then At(OwnGet(value.fields, k).value, steps[1..])
        else None
      case Index(i) =>
        if value.Arr? && i < |value.items| then At(value.items[i], steps[1..]) else None
  }

  function Written(path: string, steps: seq<Step>): string
    decreases steps
  {
    if steps == [] then path
    else match steps[0]
      case Key(k) => Written(path + "." + k, steps[1..])
      case Index(i) => Written(path + "[" + Decimal(i) + "]", steps[1..])
  }

  ghost predicate DanglesAt(document: Value, value: Value, steps: seq<Step>, ref: string) {
    && At(value, steps).Some?
    && RefOf(At(value, steps).value) == Some(ref)
    && ResolveRef(document, ref).None?
  }

  /** Every reported reference is at some position and does not resolve. */
  lemma {:induction false} ReportedDangles(document: Value, value: Value, path: string, u: Unresolved)
      returns (steps: seq<Step>)
    requires WellFormed(value)
    requires u in Visit(document, value, path)
    ensures DanglesAt(document, value, steps, u.ref) && Written(path, steps) == u.path
    decreases value, 1
  {
    match value
    case Arr(items) =>
      var i, rest := ReportedInItems(document, items, 0, path, u);
      steps := [Index(i)] + rest;
    case Obj(fields) =>
      if u in VisitFields(document, fields, path) {
        var f, rest := ReportedInFields(document, fields, path, u);
        FieldIsOwnGet(fields, f);
        steps := [Key(f.key)] + rest;
      } else {
        steps := [];
      }
  }

  lemma {:induction false} ReportedInItems(
    document: Value, items: seq<Value>, from: nat, path: string, u: Unresolved)
      returns (i: nat, rest: seq<Step>)
    requires forall x | x in items :: WellFormed(x)
    requires u in VisitItems(document, items, from, path)
    ensures from <= i < from + |items|
    ensures DanglesAt(document, items[i - from], rest, u.ref)
    ensures Written(path + "[" + Decimal(i) + "]", rest) == u.path
    decreases items, 0
  {
    if u in Visit(document, items[0], path + "[" + Decimal(from) + "]") {
      rest := ReportedDangles(document, items[0], path + "[" + Decimal(from) + "]", u);
      i := from;
    } else {
      i, rest := ReportedInItems(document, items[1..], from + 1, path, u);
    }
  }

  lemma {:induction false} ReportedInFields(
    document: Value, fields: seq<Field>, path: string, u: Unresolved)
      returns (f: Field, rest: seq<Step>)
    requires forall g | g in fields :: WellFormed(g.value)
    requires u in VisitFields(document, fields, path)
    ensures f in fields && DanglesAt(document, f.value, rest, u.ref)
    ensures Written(path + "." + f.key, rest) == u.path
    decreases fields, 0
  {
    f := fields[0];
    if u in Visit(document, f.value, path + "." + f.key) {
      rest := ReportedDangles(document, f.value, path + "." + f.key, u);
    } else {
      f, rest := ReportedInFields(document, fields[1..], path, u);
    }
  }

  /** Every dangling reference, wherever it is, is reported under its position. */
  lemma {:induction false} DanglingIsReported(
    document: Value, value: Value, path: string, steps: seq<Step>, ref: string)
    requires DanglesAt(document, value, steps, ref)
    ensures Unresolved(Written(path, steps), ref) in Visit(document, value, path)
    decreases steps
  {
    if steps != [] {
      var u := Unresolved(Written(path, steps), ref);
      match steps[0]
      case Key(k) =>
        var v := OwnGet(value.fields, k).value;
        OwnGetIsField(value.fields, k);
        DanglingIsReported(document, v, path + "." + k, steps[1..], ref);
        VisitedWithFields(document, value.fields, Field(k, v), path, u);
      case Index(i) =>
        var inside := path + "[" + Decimal(i) + "]";
        DanglingIsReported(document, value.items[i], inside, steps[1..], ref);
        VisitedWithItems(document, value.items, i, 0, path, u);
    }
  }

  lemma {:induction false} VisitedWithFields(
    document: Value, fields: seq<Field>, f: Field, path: string, u: Unresolved)
    requires f in fields && u in Visit(document, f.value, path + "." + f.key)
    ensures u in VisitFields(document, fields, path)
  {
    if fields[0] != f { VisitedWithFields(document, fields[1..], f, path, u); }
  }

  lemma {:induction false} VisitedWithItems(
    document: Value, items: seq<Value>, i: nat, from: nat, path: string, u: Unresolved)
    requires i < |items| && u in Visit(document, items[i], path + "[" + Decimal(from + i) + "]")
    ensures u in VisitItems(document, items, from, path)
  {
    if i > 0 {
      assert items[1..][i - 1] == items[i] && from + 1 + (i - 1) == from + i;
      VisitedWithItems(document, items[1..], i - 1, from + 1, path, u);
    }
  }

  /** The finder reports nothing exactly when every `$ref` string in the document resolves. */
  lemma NothingReportedIffAllResolve(document: Value)
    requires WellFormed(document)
    ensures FindUnresolved(document) == [] <==>
            forall steps, ref :: !DanglesAt(document, document, steps, ref)
  {
    if FindUnresolved(document) != [] {
      var u := FindUnresolved(document)[0];
      var steps := ReportedDangles(document, document, "$", u);
    }
    forall steps, ref | DanglesAt(document, document, steps, ref)
      ensures FindUnresolved(document) != []
    {
      DanglingIsReported(document, document, "$", steps, ref);
    }
  }

  // ----- References across compatible releases -------------------------------------

  /** The value reached through own fields of objects only. */
  function ThroughObjects(value: Value, keys: seq<string>): Option<Value>
    decreases keys
  {
    if keys == [] then Some(value)
    else if value.Obj? && OwnGet(value.fields, keys[0]).Some?
    then ThroughObjects(OwnGet(value.fields, keys[0]).value, keys[1..])
    else None
  }

  /** A compatible release still reaches a compatible value under the same keys. */
  lemma {:induction false} CompatibleKeepsTargets(baseline: Value, current: Js, keys: seq<string>)
    requires Compat.Compatible(baseline, current)
    requires ThroughObjects(baseline, keys).Some?
    ensures Walk(Some(current), keys).Some?
    ensures Compat.Compatible(ThroughObjects(baseline, keys).value, Walk(Some(current), keys).value)
  {
    if keys != [] {
      OwnGetIsField(baseline.fields, keys[0]);
      var f := Field(keys[0], OwnGet(baseline.fields, keys[0]).value);
      assert f in baseline.fields;
      CompatibleKeepsTargets(f.value, ObjectRead(current, f.key).value, keys[1..]);
    }
  }

  /** An object with a `$ref` string is only compatible with an object with the same one. */
  lemma CompatibleKeepsRefString(baseline: Value, current: Js)
    requires RefOf(baseline).Some? && Compat.Compatible(baseline, current)
    ensures current.Own? && RefOf(current.v) == RefOf(baseline)
  {
    OwnGetIsField(baseline.fields, REF);
    var f := Field(REF, OwnGet(baseline.fields, REF).value);
    assert f in baseline.fields;
    assert REF !in OBJECT_METHODS && REF != PROTO;
    assert ObjectRead(current, REF).Some? && Compat.Compatible(f.value, ObjectRead(current, REF).value);
  }

  /** If the finder accepts a release, then every reference of the baseline that is found and
      resolved through objects is still in place, unchanged, and still resolves, to a value
      compatible with the old target. */
  lemma CompatibleReleaseKeepsReferences(baseline: Value, current: Value, at: seq<string>)
    requires Compat.FindBreaking(baseline, Own(current), "$") == []
    requires ThroughObjects(baseline, at).Some? && RefOf(ThroughObjects(baseline, at).value).Some?
    requires IsLocal(RefOf(ThroughObjects(baseline, at).value).value)
    requires ThroughObjects(baseline, Tokens(RefOf(ThroughObjects(baseline, at).value).value)).Some?
    ensures var ref := RefOf(ThroughObjects(baseline, at).value).value;
            && Walk(Some(Own(current)), at).Some?
            && Walk(Some(Own(current)), at).value.Own?
            && RefOf(Walk(Some(Own(current)), at).value.v) == Some(ref)
            && ResolveRef(current, ref).Some?
            && Compat.Compatible(ThroughObjects(baseline, Tokens(ref)).value, ResolveRef(current, ref).value)
  {
    Compat.EmptyReportIffCompatible(baseline, Own(current), "$");
    CompatibleKeepsTargets(baseline, Own(current), at);
    CompatibleKeepsRefString(ThroughObjects(baseline, at).value, Walk(Some(Own(current)), at).value);
    CompatibleKeepsTargets(baseline, Own(current), Tokens(RefOf(ThroughObjects(baseline, at).value).value));
  }
}
