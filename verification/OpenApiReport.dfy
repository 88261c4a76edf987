/** What the breaking-change report says, change by change. */
module OpenApiReport {
  import opened Options
  import opened Json
  import opened OpenApiCompat

  /** The path text of the value under these keys. */
  function Dotted(path: string, keys: seq<string>): string
    decreases keys
  {
    if keys == [] then path else Dotted(path + "." + keys[0], keys[1..])
  }

  /** The two documents differ in this way right here. */
  predicate Breaks(baseline: Value, current: Js, problem: Problem) {
    match problem
    case NotAnArray => baseline.Arr? && !IsArray(current)
    case LostItem(e) => baseline.Arr? && IsArray(current) && e in baseline.items && !MatchesSome(e, Items(current))
    case NotAnObject => baseline.Obj? && !IsObject(current)
    case Changed(e, a) => !baseline.Arr? && !baseline.Obj? && e == baseline && a == current && current != Own(baseline)
    case Missing => false
  }

  /** They differ in this way where these keys lead, in the baseline through own fields and in the
      current document through property reads; a missing key is reported where it should be. */
  predicate BreaksAt(baseline: Value, current: Js, keys: seq<string>, problem: Problem)
    decreases keys
  {
    if keys == [] then Breaks(baseline, current, problem)
    else
      && baseline.Obj? && IsObject(current) && OwnGet(baseline.fields, keys[0]).Some?
      && match ObjectRead(current, keys[0])
         case Some(next) => BreaksAt(OwnGet(baseline.fields, keys[0]).value, next, keys[1..], problem)
         case None => |keys| == 1 && problem == Missing
  }

  // ----- Everything reported is there ----------------------------------------------

  lemma {:induction false} ReportedBreaks(baseline: Value, current: Js, path: string, c: Change)
      returns (keys: seq<string>)
    requires WellFormed(baseline) && c in FindBreaking(baseline, current, path)
    ensures c.path == Dotted(path, keys) && BreaksAt(baseline, current, keys, c.problem)
    decreases baseline, 1
  {
    keys := [];
    if baseline.Arr? && IsArray(current) {
      ReportedItemBreaks(baseline.items, current, path, c);
    } else if baseline.Obj? && IsObject(current) {
      var f, rest := ReportedFieldBreaks(baseline.fields, current, path, c);
      FieldIsOwnGet(baseline.fields, f);
      keys := [f.key] + rest;
    }
  }

  lemma {:induction false} ReportedItemBreaks(expected: seq<Value>, current: Js, path: string, c: Change)
    requires IsArray(current) && c in BreakingItems(expected, current, path)
    ensures c.path == path && c.problem.LostItem?
    ensures c.problem.expected in expected && !MatchesSome(c.problem.expected, Items(current))
    decreases expected, 0
  {
    if c in BreakingItems(expected[1..], current, path) {
      ReportedItemBreaks(expected[1..], current, path, c);
    } else {
      LostMatchesNone(expected[0], current, path);
    }
  }

  lemma LostMatchesNone(expected: Value, current: Js, path: string)
    requires IsArray(current)
    ensures (exists i :: 0 <= i < |Items(current)| && FindBreaking(expected, Own(Items(current)[i]), path) == [])
            <==> MatchesSome(expected, Items(current))
  {
    forall i | 0 <= i < |Items(current)|
      ensures FindBreaking(expected, Own(Items(current)[i]), path) == [] <==>
              Compatible(expected, Own(Items(current)[i]))
    {
      EmptyReportIffCompatible(expected, Own(Items(current)[i]), path);
    }
  }

  lemma {:induction false} ReportedFieldBreaks(expected: seq<Field>, current: Js, path: string, c: Change)
      returns (f: Field, rest: seq<string>)
    requires IsObject(current) && c in BreakingFields(expected, current, path)
    requires forall g | g in expected :: WellFormed(g.value)
    ensures f in expected && c.path == Dotted(path + "." + f.key, rest)
    ensures match ObjectRead(current, f.key)
            case Some(next) => BreaksAt(f.value, next, rest, c.problem)
            case None => rest == [] && c.problem == Missing
    decreases expected, 0
  {
    f, rest := expected[0], [];
    if c in BreakingFields(expected[1..], current, path) {
      f, rest := ReportedFieldBreaks(expected[1..], current, path, c);
    } else if ObjectRead(current, f.key).Some? {
      rest := ReportedBreaks(f.value, ObjectRead(current, f.key).value, path + "." + f.key, c);
    }
  }

  // ----- Everything there is reported ----------------------------------------------

  lemma {:induction false} BreakIsReported(
    baseline: Value, current: Js, path: string, keys: seq<string>, problem: Problem)
    requires BreaksAt(baseline, current, keys, problem)
    ensures Change(Dotted(path, keys), problem) in FindBreaking(baseline, current, path)
    decreases keys
  {
    if keys == [] {
      if problem.LostItem? {
        LostItemIsReported(baseline.items, current, path, problem.expected);
      }
    } else {
      var f := Field(keys[0], OwnGet(baseline.fields, keys[0]).value);
      OwnGetIsField(baseline.fields, keys[0]);
      var c := Change(Dotted(path, keys), problem);
      if ObjectRead(current, f.key).Some? {
        BreakIsReported(f.value, ObjectRead(current, f.key).value, path + "." + f.key, keys[1..], problem);
      } else {
        assert keys[1..] == [] && c.path == Dotted(path + "." + f.key, []);
      }
      FieldChangeIsReported(baseline.fields, current, path, f, c);
    }
  }

  lemma {:induction false} LostItemIsReported(expected: seq<Value>, current: Js, path: string, e: Value)
    requires IsArray(current) && e in expected && !MatchesSome(e, Items(current))
    ensures Change(path, LostItem(e)) in BreakingItems(expected, current, path)
  {
    if e == expected[0] {
      LostMatchesNone(e, current, path);
    } else {
      LostItemIsReported(expected[1..], current, path, e);
    }
  }

  lemma {:induction false} FieldChangeIsReported(expected: seq<Field>, current: Js, path: string, f: Field, c: Change)
    requires IsObject(current) && f in expected
    requires match ObjectRead(current, f.key)
             case Some(next) => c in FindBreaking(f.value, next, path + "." + f.key)
             case None => c == Change(path + "." + f.key, Missing)
    ensures c in BreakingFields(expected, current, path)
  {
    if f != expected[0] { FieldChangeIsReported(expected[1..], current, path, f, c); }
  }

  /** The report lists exactly the places where the documents break, each under its path. */
  lemma ReportIsExact(baseline: Value, current: Js, path: string, c: Change)
    requires WellFormed(baseline)
    ensures c in FindBreaking(baseline, current, path) <==>
            exists keys :: c.path == Dotted(path, keys) && BreaksAt(baseline, current, keys, c.problem)
  {
    if c in FindBreaking(baseline, current, path) {
      var keys := ReportedBreaks(baseline, current, path, c);
    }
    forall keys | c.path == Dotted(path, keys) && BreaksAt(baseline, current, keys, c.problem)
      ensures c in FindBreaking(baseline, current, path)
    {
      BreakIsReported(baseline, current, path, keys, c.problem);
    }
  }
}
