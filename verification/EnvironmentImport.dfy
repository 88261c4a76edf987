/** Importing a credential into a local environment file. */
module EnvironmentImport {
  import opened Options
  import opened EnvironmentText

  /** What the script passes for `owned` everywhere below. */
  const OWNED_NAMES: seq<string> := [
    "OUTBOUND_PROXY_MODE", "HTTP_PROXY", "HTTPS_PROXY", "ALL_PROXY", "NO_PROXY",
    "NODE_USE_ENV_PROXY", "http_proxy", "https_proxy", "all_proxy", "no_proxy"
  ]

  const ENABLED := "AI_PROVIDER_ENABLED"

  // ----- `Map` operations on entries in insertion order -----------------------------

  function Lookup(entries: seq<Entry>, name: string): Option<string> {
    if entries == [] then None
    else if entries[0].name == name then Some(entries[0].value)
    else Lookup(entries[1..], name)
  }

  function Without(entries: seq<Entry>, name: string): seq<Entry> {
    if entries == [] then []
    else if entries[0].name == name then Without(entries[1..], name)
    else [entries[0]] + Without(entries[1..], name)
  }

  /** `set`: an existing name keeps its place, a new one goes to the end. */
  function With(entries: seq<Entry>, name: string, value: string): seq<Entry> {
    if entries == [] then [Entry(name, value)]
    else if entries[0].name == name then [Entry(name, value)] + entries[1..]
    else [entries[0]] + With(entries[1..], name, value)
  }

  function WithoutAll(entries: seq<Entry>, names: seq<string>): seq<Entry>
    decreases names
  {
    if names == [] then entries else WithoutAll(Without(entries, names[0]), names[1..])
  }

  function WithAll(entries: seq<Entry>, updates: seq<Entry>): seq<Entry>
    decreases updates
  {
    if updates == [] then entries
    else WithAll(With(entries, updates[0].name, updates[0].value), updates[1..])
  }

  /** The edit of one file, with whether the provider is enabled in it. */
  function Edited(owned: seq<string>, entries: seq<Entry>, updates: seq<Entry>): Result<(seq<Entry>, bool)> {
    var updated := WithAll(WithoutAll(entries, owned), updates);
    match Lookup(updated, ENABLED)
    case None => Ok((With(updated, ENABLED, "false"), false))
    case Some(v) => if v == "true" || v == "false" then Ok((updated, v == "true")) else Err(EnabledInvalid)
  }

  function Imported(owned: seq<string>, text: string, updates: seq<Entry>): Result<string> {
    match Parse(text)
    case Err(e) => Err(e)
    case Ok(entries) =>
      match Edited(owned, entries, updates)
      case Err(e) => Err(e)
      case Ok(edited) => Ok(Serialize(edited.0))
  }

  // ----- The script ----------------------------------------------------------------

  class Environment {
    var entries: seq<Entry>

    constructor ()
      ensures entries == []
    {
      entries := [];
    }

    method Get(name: string) returns (value: Option<string>)
      ensures value == Lookup(entries, name)
      ensures value.Some? <==> Has(entries, name)
    {
      value := Lookup(entries, name);
      LookupFinds(entries, name);
    }

    method Set(name: string, value: string)
      modifies this
      ensures entries == With(old(entries), name, value)
      ensures forall n :: Lookup(entries, n) == if n == name then Some(value) else Lookup(old(entries), n)
    {
      forall n { LookupAfterWith(entries, name, value, n); }
      entries := With(entries, name, value);
    }

    method Delete(name: string)
      modifies this
      ensures entries == Without(old(entries), name)
      ensures forall n :: Lookup(entries, n) == if n == name then None else Lookup(old(entries), n)
    {
      forall n { LookupAfterWithout(entries, name, n); }
      entries := Without(entries, name);
    }
  }

  method ParseEnvironmentFile(contents: string) returns (environment: Environment, error: Option<Error>)
    ensures fresh(environment)
    ensures error.None? <==> Parse(contents).Ok?
    ensures error.None? ==> environment.entries == Parse(contents).value
    ensures error.Some? ==> Parse(contents) == Err(error.value)
  {
    environment := new Environment();
    error := None;
    var lines := SplitLines(contents);
    for i := 0 to |lines|
      invariant Parse(contents) == ParseLines(environment.entries, lines[i..])
      invariant fresh(environment)
    {
      assert lines[i..][0] == lines[i] && lines[i..][1..] == lines[i + 1..];
      match ParseLine(lines[i]) {
        case Ignored =>
        case Malformed => return environment, Some(Invalid);
        case Assignment(e) =>
          var present := environment.Get(e.name);
          if present.Some? { return environment, Some(Duplicate(e.name)); }
          NewNameGoesLast(environment.entries, e);
          environment.Set(e.name, e.value);
      }
    }
  }

  method RemoveRuntimeOwnedNetworkEnvironment(environment: Environment, owned: seq<string>)
    modifies environment
    ensures environment.entries == WithoutAll(old(environment.entries), owned)
  {
    for i := 0 to |owned|
      invariant WithoutAll(environment.entries, owned[i..]) == WithoutAll(old(environment.entries), owned)
    {
      assert owned[i..][0] == owned[i] && owned[i..][1..] == owned[i + 1..];
      environment.Delete(owned[i]);
    }
  }

  method Edit(environment: Environment, owned: seq<string>, updates: seq<Entry>) returns (enabled: Result<bool>)
    modifies environment
    ensures match Edited(owned, old(environment.entries), updates)
            case Ok(edited) => enabled == Ok(edited.1) && environment.entries == edited.0
            case Err(e) => enabled == Err(e)
  {
    RemoveRuntimeOwnedNetworkEnvironment(environment, owned);
    ghost var removed := environment.entries;
    for i := 0 to |updates|
      invariant WithAll(environment.entries, updates[i..]) == WithAll(removed, updates)
    {
      assert updates[i..][0] == updates[i] && updates[i..][1..] == updates[i + 1..];
      environment.Set(updates[i].name, updates[i].value);
    }
    var value := environment.Get(ENABLED);
    if value.None? {
      environment.Set(ENABLED, "false");
      enabled := Ok(false);
    } else if value.value == "true" {
      enabled := Ok(true);
    } else if value.value == "false" {
      enabled := Ok(false);
    } else {
      enabled := Err(EnabledInvalid);
    }
  }

  predicate AllParse(texts: seq<string>) {
    forall k | 0 <= k < |texts| :: Parse(texts[k]).Ok?
  }

  predicate AllImport(owned: seq<string>, texts: seq<string>, updates: seq<Entry>) {
    forall k | 0 <= k < |texts| :: Imported(owned, texts[k], updates).Ok?
  }

  method ParseFiles(texts: seq<string>) returns (environments: seq<Environment>, failed: Option<Error>)
    ensures failed.None? <==> AllParse(texts)
    ensures failed.Some? ==>
              exists i | 0 <= i < |texts| :: Parse(texts[i]) == Err(failed.value) && AllParse(texts[..i])
    ensures failed.None? ==> |environments| == |texts|
    ensures failed.None? ==>
              forall k | 0 <= k < |texts| ::
                fresh(environments[k]) && Parse(texts[k]) == Ok(environments[k].entries)
    ensures failed.None? ==>
              forall j, k | 0 <= j < k < |texts| :: environments[j] != environments[k]
  {
    environments := [];
    for i := 0 to |texts|
      invariant |environments| == i
      invariant forall k | 0 <= k < i :: fresh(environments[k]) && Parse(texts[k]) == Ok(environments[k].entries)
      invariant forall j, k | 0 <= j < k < i :: environments[j] != environments[k]
    {
      var environment, error := ParseEnvironmentFile(texts[i]);
      if error.Some? {
        assert AllParse(texts[..i]);
        return environments, error;
      }
      environments := environments + [environment];
    }
    failed := None;
  }

  method EditFiles(environments: seq<Environment>, owned: seq<string>, updates: seq<Entry>, ghost texts: seq<string>)
      returns (failed: Option<Error>)
    requires |environments| == |texts|
    requires forall k | 0 <= k < |texts| :: Parse(texts[k]) == Ok(environments[k].entries)
    requires forall j, k | 0 <= j < k < |texts| :: environments[j] != environments[k]
    modifies set k | 0 <= k < |environments| :: environments[k]
    ensures failed.None? <==> AllImport(owned, texts, updates)
    ensures failed.Some? ==>
              exists i | 0 <= i < |texts| ::
                Imported(owned, texts[i], updates) == Err(failed.value) && AllImport(owned, texts[..i], updates)
    ensures failed.None? ==>
              forall k | 0 <= k < |texts| ::
                Imported(owned, texts[k], updates) == Ok(Serialize(environments[k].entries))
  {
    for i := 0 to |environments|
      invariant forall k | i <= k < |texts| :: Parse(texts[k]) == Ok(environments[k].entries)
      invariant forall k | 0 <= k < i ::
                  Imported(owned, texts[k], updates) == Ok(Serialize(environments[k].entries))
    {
      var enabled := Edit(environments[i], owned, updates);
      if enabled.Err? {
        assert AllImport(owned, texts[..i], updates);
        return Some(enabled.error);
      }
    }
    failed := None;
  }

  method SerializeFiles(environments: seq<Environment>) returns (contents: seq<string>)
    ensures |contents| == |environments|
    ensures forall k | 0 <= k < |contents| :: contents[k] == Serialize(environments[k].entries)
  {
    contents := [];
    for i := 0 to |environments|
      invariant |contents| == i
      invariant forall k | 0 <= k < i :: contents[k] == Serialize(environments[k].entries)
    {
      contents := contents + [Serialize(environments[i].entries)];
    }
  }

  /** The files as they are written, one for each text, or the error that stops the import before
      anything is written. */
  method ImportFiles(owned: seq<string>, texts: seq<string>, updates: seq<Entry>) returns (written: Result<seq<string>>)
    ensures written.Ok? <==> AllImport(owned, texts, updates)
    ensures written.Ok? ==> |written.value| == |texts|
    ensures written.Ok? ==>
              forall k | 0 <= k < |texts| :: Imported(owned, texts[k], updates) == Ok(written.value[k])
    ensures written.Err? && !AllParse(texts) ==>
              exists i | 0 <= i < |texts| :: Parse(texts[i]) == Err(written.error) && AllParse(texts[..i])
    ensures written.Err? && AllParse(texts) ==>
              exists i | 0 <= i < |texts| ::
                Imported(owned, texts[i], updates) == Err(written.error) && AllImport(owned, texts[..i], updates)
  {
    ImportNeedsParse(owned, texts, updates);
    var environments, failed := ParseFiles(texts);
    if failed.Some? { return Err(failed.value); }
    failed := EditFiles(environments, owned, updates, texts);
    if failed.Some? { return Err(failed.value); }
    var contents := SerializeFiles(environments);
    written := Ok(contents);
  }

  lemma ImportNeedsParse(owned: seq<string>, texts: seq<string>, updates: seq<Entry>)
    ensures AllImport(owned, texts, updates) ==> AllParse(texts)
  {
    forall k | 0 <= k < |texts| && Parse(texts[k]).Err? ensures Imported(owned, texts[k], updates).Err? {
    }
  }

  // ----- Laws of the map operations ------------------------------------------------

  lemma {:induction false} LookupFinds(entries: seq<Entry>, name: string)
    ensures Lookup(entries, name).Some? <==> Has(entries, name)
  {
    if entries != [] {
      LookupFinds(entries[1..], name);
      assert forall e :: e in entries <==> e == entries[0] || e in entries[1..];
    }
  }

  lemma {:induction false} NewNameGoesLast(entries: seq<Entry>, e: Entry)
    requires !Has(entries, e.name)
    ensures With(entries, e.name, e.value) == entries + [e]
  {
    if entries != [] {
      assert entries[0] in entries && forall x | x in entries[1..] :: x in entries;
      NewNameGoesLast(entries[1..], e);
    }
  }

  /** A name that is there keeps its place, whatever comes before and after it. */
  lemma {:induction false} SetKeepsPlaces(before: seq<Entry>, was: string, after: seq<Entry>,
                                          name: string, value: string)
    requires !Has(before, name)
    ensures With(before + [Entry(name, was)] + after, name, value) == before + [Entry(name, value)] + after
  {
    var entries := before + [Entry(name, was)] + after;
    if before == [] {
      assert entries[0] == Entry(name, was) && entries[1..] == after;
    } else {
      assert entries[0] == before[0] && before[0] in before;
      assert entries[1..] == before[1..] + [Entry(name, was)] + after;
      assert forall e | e in before[1..] :: e in before;
      SetKeepsPlaces(before[1..], was, after, name, value);
    }
  }

  /** Only the entry of that name goes; the others stay in order. */
  lemma {:induction false} DeleteTakesOne(before: seq<Entry>, was: string, after: seq<Entry>, name: string)
    requires !Has(before, name) && !Has(after, name)
    ensures Without(before + [Entry(name, was)] + after, name) == before + after
  {
    var entries := before + [Entry(name, was)] + after;
    if before == [] {
      assert entries[0] == Entry(name, was) && entries[1..] == after == before + after;
      LookupFinds(after, name);
      DeletingAbsentIsNothing(after, name);
    } else {
      assert entries[0] == before[0] && before[0] in before;
      assert entries[1..] == before[1..] + [Entry(name, was)] + after;
      assert forall e | e in before[1..] :: e in before;
      DeleteTakesOne(before[1..], was, after, name);
    }
  }

  lemma {:induction false} LookupAfterWith(entries: seq<Entry>, name: string, value: string, other: string)
    ensures Lookup(With(entries, name, value), other) ==
            if other == name then Some(value) else Lookup(entries, other)
  {
    if entries != [] && entries[0].name != name { LookupAfterWith(entries[1..], name, value, other); }
  }

  lemma {:induction false} LookupAfterWithout(entries: seq<Entry>, name: string, other: string)
    ensures Lookup(Without(entries, name), other) == if other == name then None else Lookup(entries, other)
  {
    if entries != [] { LookupAfterWithout(entries[1..], name, other); }
  }

  /** Setting a name to the value it has changes nothing, not even the order. */
  lemma {:induction false} SettingAgainIsNothing(entries: seq<Entry>, name: string, value: string)
    requires Lookup(entries, name) == Some(value)
    ensures With(entries, name, value) == entries
  {
    if entries[0].name != name { SettingAgainIsNothing(entries[1..], name, value); }
  }

  lemma {:induction false} DeletingAbsentIsNothing(entries: seq<Entry>, name: string)
    requires Lookup(entries, name).None?
    ensures Without(entries, name) == entries
  {
    if entries != [] { DeletingAbsentIsNothing(entries[1..], name); }
  }

  // ----- Well-formedness is kept ---------------------------------------------------

  lemma RestIsWellFormed(entries: seq<Entry>)
    requires WellFormed(entries) && entries != []
    ensures WellFormed(entries[1..]) && IsName(entries[0].name) && IsValue(entries[0].value)
    ensures forall e | e in entries[1..] :: e in entries && e.name != entries[0].name
  {
    var rest := entries[1..];
    assert entries[0] in entries && forall x | x in rest :: x in entries;
    forall e | e in rest ensures e.name != entries[0].name {
      var i :| 0 <= i < |rest| && rest[i] == e;
      assert entries[i + 1] == e;
    }
  }

  lemma PrependKeepsWellFormed(e: Entry, rest: seq<Entry>)
    requires WellFormed(rest) && IsName(e.name) && IsValue(e.value)
    requires forall x | x in rest :: x.name != e.name
    ensures WellFormed([e] + rest)
  {
  }

  lemma {:induction false} WithKeepsWellFormed(entries: seq<Entry>, name: string, value: string)
    requires WellFormed(entries) && IsName(name) && IsValue(value)
    ensures WellFormed(With(entries, name, value))
    ensures forall e | e in With(entries, name, value) :: e.name == name || e in entries
  {
    if entries == [] {
      PrependKeepsWellFormed(Entry(name, value), []);
    } else {
      RestIsWellFormed(entries);
      if entries[0].name == name {
        PrependKeepsWellFormed(Entry(name, value), entries[1..]);
      } else {
        WithKeepsWellFormed(entries[1..], name, value);
        PrependKeepsWellFormed(entries[0], With(entries[1..], name, value));
      }
    }
  }

  lemma {:induction false} WithoutKeepsWellFormed(entries: seq<Entry>, name: string)
    requires WellFormed(entries)
    ensures WellFormed(Without(entries, name))
    ensures forall e | e in Without(entries, name) :: e in entries
  {
    if entries != [] {
      RestIsWellFormed(entries);
      WithoutKeepsWellFormed(entries[1..], name);
      PrependKeepsWellFormed(entries[0], Without(entries[1..], name));
    }
  }

  lemma {:induction false} WithoutAllLaws(entries: seq<Entry>, names: seq<string>)
    requires WellFormed(entries)
    ensures WellFormed(WithoutAll(entries, names))
    ensures forall n :: Lookup(WithoutAll(entries, names), n) == if n in names then None else Lookup(entries, n)
    decreases names
  {
    if names != [] {
      WithoutKeepsWellFormed(entries, names[0]);
      WithoutAllLaws(Without(entries, names[0]), names[1..]);
      forall n { LookupAfterWithout(entries, names[0], n); }
    }
  }

  lemma {:induction false} WithoutAllOfAbsentIsNothing(entries: seq<Entry>, names: seq<string>)
    requires forall n | n in names :: Lookup(entries, n).None?
    ensures WithoutAll(entries, names) == entries
    decreases names
  {
    if names != [] {
      DeletingAbsentIsNothing(entries, names[0]);
      WithoutAllOfAbsentIsNothing(entries, names[1..]);
    }
  }

  lemma {:induction false} WithAllLaws(entries: seq<Entry>, updates: seq<Entry>)
    requires WellFormed(entries) && WellFormed(updates)
    ensures WellFormed(WithAll(entries, updates))
    ensures forall n :: Lookup(WithAll(entries, updates), n) ==
                        if Lookup(updates, n).Some? then Lookup(updates, n) else Lookup(entries, n)
    decreases updates
  {
    if updates != [] {
      var u, rest := updates[0], updates[1..];
      RestIsWellFormed(updates);
      WithKeepsWellFormed(entries, u.name, u.value);
      WithAllLaws(With(entries, u.name, u.value), rest);
      LookupFinds(rest, u.name);
      forall n { LookupAfterWith(entries, u.name, u.value, n); }
    }
  }

  lemma {:induction false} UpdatingAgainIsNothing(entries: seq<Entry>, updates: seq<Entry>)
    requires forall u | u in updates :: Lookup(entries, u.name) == Some(u.value)
    ensures WithAll(entries, updates) == entries
    decreases updates
  {
    if updates != [] {
      assert updates[0] in updates;
      SettingAgainIsNothing(entries, updates[0].name, updates[0].value);
      UpdatingAgainIsNothing(entries, updates[1..]);
    }
  }

  lemma {:induction false} LookupOfEntry(entries: seq<Entry>, e: Entry)
    requires UniqueNames(entries) && e in entries
    ensures Lookup(entries, e.name) == Some(e.value)
  {
    if entries[0] != e {
      var i :| 1 <= i < |entries| && entries[i] == e;
      assert entries[1..][i - 1] == e;
      LookupOfEntry(entries[1..], e);
    }
  }

  // ----- Importing twice -----------------------------------------------------------

  /** What the script's updates are: written names and values, none of them owned by the
      runtime, which does not own the provider switch either. */
  predicate AreUpdates(owned: seq<string>, updates: seq<Entry>) {
    WellFormed(updates) && ENABLED !in owned && forall u | u in updates :: u.name !in owned
  }

  lemma EditedReads(owned: seq<string>, entries: seq<Entry>, updates: seq<Entry>, name: string)
    requires WellFormed(entries) && AreUpdates(owned, updates) && Edited(owned, entries, updates).Ok?
    ensures Lookup(Edited(owned, entries, updates).value.0, name) ==
            if name in owned then None
            else if Lookup(updates, name).Some? then Lookup(updates, name)
            else if name == ENABLED && Lookup(entries, name).None? then Some("false")
            else Lookup(entries, name)
  {
    var removed := WithoutAll(entries, owned);
    WithoutAllLaws(entries, owned);
    WithAllLaws(removed, updates);
    LookupAfterWith(WithAll(removed, updates), ENABLED, "false", name);
    LookupFinds(updates, name);
    EnabledIsName();
  }

  lemma EditedIsWellFormed(owned: seq<string>, entries: seq<Entry>, updates: seq<Entry>)
    requires WellFormed(entries) && AreUpdates(owned, updates) && Edited(owned, entries, updates).Ok?
    ensures WellFormed(Edited(owned, entries, updates).value.0)
  {
    var removed := WithoutAll(entries, owned);
    WithoutAllLaws(entries, owned);
    WithAllLaws(removed, updates);
    EnabledIsName();
    WithKeepsWellFormed(WithAll(removed, updates), ENABLED, "false");
  }

  lemma EditTwice(owned: seq<string>, entries: seq<Entry>, updates: seq<Entry>)
    requires WellFormed(entries) && AreUpdates(owned, updates)
    ensures Edited(owned, entries, updates).Ok? ==>
              Edited(owned, Edited(owned, entries, updates).value.0, updates) == Edited(owned, entries, updates)
  {
    if Edited(owned, entries, updates).Err? { return; }
    var final := Edited(owned, entries, updates).value.0;
    EditedHasNothingToDo(owned, entries, updates);
    WithoutAllOfAbsentIsNothing(final, owned);
    UpdatingAgainIsNothing(final, updates);
    LookupAfterWith(WithAll(WithoutAll(entries, owned), updates), ENABLED, "false", ENABLED);
  }

  lemma EditedHasNothingToDo(owned: seq<string>, entries: seq<Entry>, updates: seq<Entry>)
    requires WellFormed(entries) && AreUpdates(owned, updates) && Edited(owned, entries, updates).Ok?
    ensures forall n | n in owned :: Lookup(Edited(owned, entries, updates).value.0, n).None?
    ensures forall u | u in updates :: Lookup(Edited(owned, entries, updates).value.0, u.name) == Some(u.value)
  {
    forall n | n in owned ensures Lookup(Edited(owned, entries, updates).value.0, n).None? {
      EditedReads(owned, entries, updates, n);
    }
    forall u | u in updates ensures Lookup(Edited(owned, entries, updates).value.0, u.name) == Some(u.value) {
      EditedReads(owned, entries, updates, u.name);
      LookupOfEntry(updates, u);
    }
  }

  /** The names that a credential sets. */
  const UPDATE_NAMES: seq<string> := [
    "AI_PROVIDER_REF", "AI_PROVIDER_BASE_URL", "AI_PROVIDER_PROXY_MODE", "AI_MODEL_ID",
    "AI_DISCOVERY_MODEL_ID", "AI_MODEL_VERSION", "AI_PROVIDER_CREDENTIAL_SECRET_REF",
    "AI_PROVIDER_MAX_CALLS", "AI_PROVIDER_TIMEOUT_MS", "AI_PROVIDER_MAX_INPUT_TOKENS",
    "AI_PROVIDER_MAX_OUTPUT_TOKENS", "AI_PROVIDER_ABSOLUTE_BUDGET_USD",
    "AI_PROVIDER_INPUT_COST_USD_PER_MILLION_TOKENS", "AI_PROVIDER_OUTPUT_COST_USD_PER_MILLION_TOKENS",
    "AI_DISCOVERY_MAX_CALLS", "AI_DISCOVERY_ABSOLUTE_BUDGET_USD", "AI_DISCOVERY_WINDOW_SECONDS",
    "AI_DISCOVERY_MAX_CONCURRENCY", "AI_DISCOVERY_MAX_WORK_ITEMS_PER_GENERATION",
    "AI_OUTREACH_DRAFT_MAX_CALLS", "AI_OUTREACH_DRAFT_ABSOLUTE_BUDGET_USD",
    "AI_OUTREACH_DRAFT_WINDOW_SECONDS", "AI_OUTREACH_DRAFT_MAX_CONCURRENCY"
  ]

  lemma UpdatesAreNotOwned()
    ensures forall n | n in UPDATE_NAMES :: n !in OWNED_NAMES
  {
    UpdateNamesHaveI();
    OwnedNamesHaveNoI();
  }

  lemma UpdatesQualify(owned: seq<string>, names: seq<string>, updates: seq<Entry>)
    requires WellFormed(updates) && ENABLED !in owned && forall n | n in names :: n !in owned
    requires forall u | u in updates :: u.name in names
    ensures AreUpdates(owned, updates)
  {
  }

  /** Whatever values a credential sets, as long as they can be written, its updates qualify. */
  lemma CredentialUpdatesQualify(updates: seq<Entry>)
    requires WellFormed(updates) && forall u | u in updates :: u.name in UPDATE_NAMES
    ensures AreUpdates(OWNED_NAMES, updates)
  {
    UpdatesAreNotOwned();
    EnabledIsName();
    UpdatesQualify(OWNED_NAMES, UPDATE_NAMES, updates);
  }

  lemma UpdateNamesHaveI()
    ensures forall n | n in UPDATE_NAMES :: |n| > 1 && n[1] == 'I'
  {
  }

  lemma OwnedNamesHaveNoI()
    ensures forall n | n in OWNED_NAMES :: |n| > 1 && n[1] != 'I'
  {
  }

  lemma EnabledIsName()
    ensures IsName(ENABLED) && ENABLED !in OWNED_NAMES && IsValue("false")
  {
  }

  /** Importing the same credential again leaves the file as it is, byte for byte. */
  lemma ImportIsAFixedPoint(owned: seq<string>, text: string, updates: seq<Entry>)
    requires AreUpdates(owned, updates)
    ensures Imported(owned, text, updates).Ok? ==>
              Imported(owned, Imported(owned, text, updates).value, updates) == Imported(owned, text, updates)
  {
    if Imported(owned, text, updates).Err? { return; }
    ParseIsWellFormed(text);
    var entries := Parse(text).value;
    EditTwice(owned, entries, updates);
    EditedIsWellFormed(owned, entries, updates);
    ParseInvertsSerialize(Edited(owned, entries, updates).value.0);
  }

  /** What an import leaves in the file: nothing owned by the runtime, every update, the
      provider switch, and every other assignment of the old file. */
  lemma ImportedFileReads(owned: seq<string>, text: string, updates: seq<Entry>, name: string)
    requires AreUpdates(owned, updates)
    ensures Imported(owned, text, updates).Ok? ==>
              && Parse(text).Ok? && Parse(Imported(owned, text, updates).value).Ok?
              && Lookup(Parse(Imported(owned, text, updates).value).value, name) ==
                 if name in owned then None
                 else if Lookup(updates, name).Some? then Lookup(updates, name)
                 else if name == ENABLED && Lookup(Parse(text).value, name).None? then Some("false")
                 else Lookup(Parse(text).value, name)
  {
    if Imported(owned, text, updates).Err? { return; }
    ParseIsWellFormed(text);
    var entries := Parse(text).value;
    EditTwice(owned, entries, updates);
    EditedIsWellFormed(owned, entries, updates);
    ParseInvertsSerialize(Edited(owned, entries, updates).value.0);
    EditedReads(owned, entries, updates, name);
  }

  // ----- When an import succeeds ---------------------------------------------------

  /** What the provider switch is after the updates, if it is set anywhere. */
  function Switch(entries: seq<Entry>, updates: seq<Entry>): Option<string> {
    if Lookup(updates, "AI_PROVIDER_ENABLED").Some? then Lookup(updates, "AI_PROVIDER_ENABLED")
    else Lookup(entries, "AI_PROVIDER_ENABLED")
  }

  /** The edit goes through exactly when the switch is missing, true or false, and the provider is
      on exactly when it is true. */
  lemma EditSucceedsIff(owned: seq<string>, entries: seq<Entry>, updates: seq<Entry>)
    requires WellFormed(entries) && AreUpdates(owned, updates)
    ensures Edited(owned, entries, updates).Ok? <==>
              Switch(entries, updates) in {None, Some("true"), Some("false")}
    ensures Edited(owned, entries, updates).Ok? ==>
              (Edited(owned, entries, updates).value.1 <==> Switch(entries, updates) == Some("true"))
    ensures Edited(owned, entries, updates).Err? ==> Edited(owned, entries, updates).error == EnabledInvalid
  {
    var removed := WithoutAll(entries, owned);
    WithoutAllLaws(entries, owned);
    WithAllLaws(removed, updates);
    assert Lookup(WithAll(removed, updates), "AI_PROVIDER_ENABLED") == Switch(entries, updates);
  }

  /** A file is imported exactly when it parses and its switch is missing, true or false. */
  lemma ImportSucceedsIff(owned: seq<string>, text: string, updates: seq<Entry>)
    requires AreUpdates(owned, updates)
    ensures Imported(owned, text, updates).Ok? <==>
              Parse(text).Ok? && Switch(Parse(text).value, updates) in {None, Some("true"), Some("false")}
    ensures Imported(owned, text, updates).Err? ==>
              Imported(owned, text, updates).error ==
              if Parse(text).Err? then Parse(text).error else EnabledInvalid
  {
    if Parse(text).Ok? {
      ParseIsWellFormed(text);
      EditSucceedsIff(owned, Parse(text).value, updates);
    }
  }

  /** The names that the runtime owns. */
  lemma OwnedNames(name: string)
    ensures name in OWNED_NAMES <==>
            || name == "OUTBOUND_PROXY_MODE" || name == "HTTP_PROXY" || name == "HTTPS_PROXY" || name == "ALL_PROXY"
            || name == "NO_PROXY" || name == "NODE_USE_ENV_PROXY" || name == "http_proxy" || name == "https_proxy"
            || name == "all_proxy" || name == "no_proxy"
  {
  }
}
