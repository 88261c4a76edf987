/** JSON documents as the contract tooling sees them, and the way a JavaScript
    property read looks at them: own fields first, then the built-in prototypes. */
module Json {
  import opened Options

  /** A JSON number. `JSON.parse("-0")` keeps its sign and `Object.is` tells it from `0`,
      so two numbers are the same here exactly when `Object.is` says so. */
  datatype Number = Finite(value: real) | NegativeZero

  datatype Value =
    | Null
    | Bool(b: bool)
    | Num(n: Number)
    | Str(s: string)
    | Arr(items: seq<Value>)
    | Obj(fields: seq<Field>)

  /** Fields are listed in `Object.entries` order. */
  datatype Field = Field(key: string, value: Value)

  predicate UniqueKeys(fields: seq<Field>) {
    forall i, j | 0 <= i < j < |fields| :: fields[i].key != fields[j].key
  }

  /** Every value a JSON parser can produce: no object has a key twice. */
  predicate WellFormed(v: Value) {
    match v
    case Arr(items) => forall x | x in items :: WellFormed(x)
    case Obj(fields) => UniqueKeys(fields) && forall f | f in fields :: WellFormed(f.value)
    case _ => true
  }

  function OwnGet(fields: seq<Field>, key: string): Option<Value> {
    if fields == [] then None
    else if fields[0].key == key then Some(fields[0].value)
    else OwnGet(fields[1..], key)
  }

  lemma {:induction false} OwnGetIsField(fields: seq<Field>, key: string)
    ensures OwnGet(fields, key).Some? ==> Field(key, OwnGet(fields, key).value) in fields
    ensures OwnGet(fields, key).None? ==> forall f | f in fields :: f.key != key
  {
    if fields != [] && fields[0].key != key {
      OwnGetIsField(fields[1..], key);
    }
  }

  lemma {:induction false} FieldIsOwnGet(fields: seq<Field>, f: Field)
    requires UniqueKeys(fields) && f in fields
    ensures OwnGet(fields, f.key) == Some(f.value)
  {
    if fields[0] != f {
      var i :| 1 <= i < |fields| && fields[i] == f;
      assert fields[0].key != fields[i].key;
      assert f == fields[1..][i - 1];
      FieldIsOwnGet(fields[1..], f);
    }
  }

  // ----- Property reads ------------------------------------------------------------

  /** What a property read can yield: a JSON value, one of the two prototype objects
      every parsed document inherits from, or one of their functions. */
  datatype Js = Own(v: Value) | ObjectPrototype | ArrayPrototype | Function

  const PROTO := "__proto__"

  const OBJECT_METHODS: set<string> := {
    "constructor", "hasOwnProperty", "isPrototypeOf", "propertyIsEnumerable",
    "toLocaleString", "toString", "valueOf", "__defineGetter__", "__defineSetter__",
    "__lookupGetter__", "__lookupSetter__"
  }

  const ARRAY_METHODS: set<string> := {
    "at", "concat", "copyWithin", "entries", "every", "fill", "filter", "find", "findIndex",
    "findLast", "findLastIndex", "flat", "flatMap", "forEach", "includes", "indexOf", "join",
    "keys", "lastIndexOf", "map", "pop", "push", "reduce", "reduceRight", "reverse", "shift",
    "slice", "some", "sort", "splice", "toReversed", "toSorted", "toSpliced", "unshift",
    "values", "with"
  }

  predicate IsArray(x: Js) {
    x.ArrayPrototype? || (x.Own? && x.v.Arr?)
  }

  predicate IsObject(x: Js) {
    x.ObjectPrototype? || (x.Own? && x.v.Obj?)
  }

  function Items(x: Js): seq<Value>
    requires IsArray(x)
  {
    if x.Own? then x.v.items else []
  }

  /** `key in x` and `x[key]` for an object: `None` means that the key is not there. */
  function ObjectRead(x: Js, key: string): Option<Js>
    requires IsObject(x)
  {
    var own := if x.Own? then OwnGet(x.v.fields, key) else None;
    if own.Some? then Some(Own(own.value))
    else if key == PROTO then Some(if x.Own? then ObjectPrototype else Own(Null))
    else if key in OBJECT_METHODS then Some(Function)
    else None
  }

  function Decimal(n: nat): string {
    if n < 10 then [('0' as int + n) as char] else Decimal(n / 10) + [('0' as int + n % 10) as char]
  }

  /** The item whose index, written in decimal, is the property name. */
  function IndexRead(items: seq<Value>, from: nat, key: string): Option<Value>
    requires from <= |items|
    decreases |items| - from
  {
    if from == |items| then None
    else if Decimal(from) == key then Some(items[from])
    else IndexRead(items, from + 1, key)
  }

  /** `x[key]` for an array: an item, its length, or what arrays inherit. */
  function ArrayRead(x: Js, key: string): Option<Js>
    requires IsArray(x)
  {
    var item := IndexRead(Items(x), 0, key);
    if item.Some? then Some(Own(item.value))
    else if key == "length" then Some(Own(Num(Finite(|Items(x)| as real))))
    else if key == PROTO then Some(if x.Own? then ArrayPrototype else ObjectPrototype)
    else if key in ARRAY_METHODS || key in OBJECT_METHODS then Some(Function)
    else None
  }

  // ----- Indices -------------------------------------------------------------------

  /** The value of a row of decimal digits. */
  function Digits(text: string): (n: nat)
    requires forall c | c in text :: c in "0123456789"
  {
    if text == "" then 0
    else 10 * Digits(text[..|text| - 1]) + DigitOf(text[|text| - 1])
  }

  function DigitOf(c: char): (d: nat)
    requires c in "0123456789"
  {
    if c == '0' then 0 else if c == '1' then 1 else if c == '2' then 2 else if c == '3' then 3 else if c == '4' then 4
    else if c == '5' then 5 else if c == '6' then 6 else if c == '7' then 7 else if c == '8' then 8 else 9
  }

  /** An index is written in decimal digits that denote it, without a leading zero. */
  lemma {:induction false} DecimalDenotes(n: nat)
    ensures Decimal(n) != "" && forall c | c in Decimal(n) :: c in "0123456789"
    ensures Digits(Decimal(n)) == n
    ensures n > 0 ==> Decimal(n)[0] != '0'
  {
    if n >= 10 {
      DecimalDenotes(n / 10);
      var last := ('0' as int + n % 10) as char;
      LastDigit(n % 10);
      assert Decimal(n)[..|Decimal(n)| - 1] == Decimal(n / 10) && Decimal(n)[|Decimal(n)| - 1] == last;
    } else {
      LastDigit(n);
      assert Decimal(n)[..0] == "";
    }
  }

  lemma LastDigit(d: nat)
    requires d < 10
    ensures ('0' as int + d) as char in "0123456789" && DigitOf(('0' as int + d) as char) == d
  {
  }

  /** Reading an array under a text finds the item whose index the text denotes. */
  lemma {:induction false} IndexReadFinds(items: seq<Value>, from: nat, i: nat)
    requires from <= i < |items|
    ensures IndexRead(items, from, Decimal(i)) == Some(items[i])
    decreases i - from
  {
    if from < i {
      DecimalDenotes(from);
      DecimalDenotes(i);
      IndexReadFinds(items, from + 1, i);
    }
  }

  lemma {:induction false} IndexReadFindsOnly(items: seq<Value>, from: nat, key: string)
    requires from <= |items| && IndexRead(items, from, key).Some?
    ensures exists i | from <= i < |items| :: key == Decimal(i) && IndexRead(items, from, key) == Some(items[i])
    decreases |items| - from
  {
    if Decimal(from) != key { IndexReadFindsOnly(items, from + 1, key); }
  }

  // ----- What is inherited ---------------------------------------------------------

  /** The names of the functions that every object inherits. */
  predicate IsObjectMethod(key: string) {
    || key == "constructor" || key == "hasOwnProperty" || key == "isPrototypeOf" || key == "propertyIsEnumerable"
    || key == "toLocaleString" || key == "toString" || key == "valueOf" || key == "__defineGetter__"
    || key == "__defineSetter__" || key == "__lookupGetter__" || key == "__lookupSetter__"
  }

  /** Reading a document's object finds its own field, else the prototype under `__proto__`, else an
      inherited function; the prototype itself inherits nothing but null under `__proto__`. */
  lemma ObjectReads(fields: seq<Field>, key: string)
    ensures ObjectRead(Own(Obj(fields)), key) ==
            if OwnGet(fields, key).Some? then Some(Own(OwnGet(fields, key).value))
            else if key == "__proto__" then Some(ObjectPrototype)
            else if IsObjectMethod(key) then Some(Function)
            else None
    ensures ObjectRead(ObjectPrototype, key) ==
            if key == "__proto__" then Some(Own(Null)) else if IsObjectMethod(key) then Some(Function) else None
  {
  }

  /** Those that arrays inherit beside them, in two halves. */
  predicate IsEarlyArrayMethod(key: string) {
    || key == "at" || key == "concat" || key == "copyWithin" || key == "entries" || key == "every" || key == "fill"
    || key == "filter" || key == "find" || key == "findIndex" || key == "findLast" || key == "findLastIndex"
    || key == "flat" || key == "flatMap" || key == "forEach" || key == "includes" || key == "indexOf" || key == "join"
  }

  predicate IsLateArrayMethod(key: string) {
    || key == "keys" || key == "lastIndexOf" || key == "map" || key == "pop" || key == "push" || key == "reduce"
    || key == "reduceRight" || key == "reverse" || key == "shift" || key == "slice" || key == "some" || key == "sort"
    || key == "splice" || key == "toReversed" || key == "toSorted" || key == "toSpliced" || key == "unshift"
    || key == "values" || key == "with"
  }

  lemma ArrayMethods(key: string)
    ensures key in ARRAY_METHODS <==> IsEarlyArrayMethod(key) || IsLateArrayMethod(key)
  {
  }

  /** Reading a document's array finds the item of that index, else its length, else what it inherits. */
  lemma ArrayReads(items: seq<Value>, key: string)
    ensures ArrayRead(Own(Arr(items)), key) ==
            if IndexRead(items, 0, key).Some? then Some(Own(IndexRead(items, 0, key).value))
            else if key == "length" then Some(Own(Num(Finite(|items| as real))))
            else if key == "__proto__" then Some(ArrayPrototype)
            else if IsEarlyArrayMethod(key) || IsLateArrayMethod(key) || IsObjectMethod(key) then Some(Function)
            else None
  {
    ArrayMethods(key);
    ObjectReads([], key);
  }
}
