/** OpenAPI documents as the aggregator reads them, up to Python equality of values. */
module OpenApiDocuments {
  import opened Options
  import opened PythonText

  /** A JSON value; equal values are those `==` calls equal. */
  datatype Doc =
    | Null | Text(s: string) | Number(n: real) | Flag(b: bool)
    | List(items: seq<Doc>) | Object(fields: map<string, Doc>)

  /** An operation object: the fields the aggregator touches, and the rest. */
  datatype Operation = Operation(
    operationId: Option<Doc>,
    tags: seq<string>,
    responses: Option<map<string, Doc>>,
    owner: Option<Doc>,
    rest: map<string, Doc>)

  /** What a path item holds under a key: an operation, or parameters, a summary and so on. */
  datatype Node = Op(op: Operation) | Other(doc: Doc)

  datatype Member = Member(key: string, node: Node)
  datatype PathEntry = PathEntry(path: string, members: seq<Member>)
  datatype Component = Component(name: string, value: Doc)
  datatype Group = Group(kind: string, components: seq<Component>)

  datatype Document = Document(paths: seq<PathEntry>, groups: seq<Group>, rest: map<string, Doc>)

  datatype Module = Module(
    id: string, document: Document, privatePaths: set<string>, tagModules: seq<(string, string)>)

  predicate UniqueMembers(members: seq<Member>) {
    forall i, j | 0 <= i < j < |members| :: members[i].key != members[j].key
  }

  /** Dictionaries have unique keys. */
  predicate WellFormed(d: Document) {
    && (forall i, j | 0 <= i < j < |d.paths| :: d.paths[i].path != d.paths[j].path)
    && (forall p | p in d.paths :: UniqueMembers(p.members))
    && (forall i, j | 0 <= i < j < |d.groups| :: d.groups[i].kind != d.groups[j].kind)
    && (forall g | g in d.groups ::
          forall i, j | 0 <= i < j < |g.components| :: g.components[i].name != g.components[j].name)
  }

  // ----- Operations ----------------------------------------------------------------

  const HTTP_METHODS: set<string> := {"delete", "get", "head", "options", "patch", "post", "put", "trace"}

  function Lower(s: string): string {
    seq(|s|, i requires 0 <= i < |s| =>
      if 'A' <= s[i] <= 'Z' then (s[i] as int - 'A' as int + 'a' as int) as char else s[i])
  }

  predicate IsHttp(key: string) {
    Lower(key) in HTTP_METHODS
  }

  /** The operation has a string id that is not blank. */
  predicate HasId(op: Operation) {
    op.operationId.Some? && op.operationId.value.Text? && exists c | c in op.operationId.value.s :: !IsSpace(c)
  }

  function Id(op: Operation): string {
    if op.operationId.Some? && op.operationId.value.Text? then op.operationId.value.s else ""
  }

  /** An operation together with its route. */
  datatype Listed = Listed(verb: string, path: string, node: Node)

  predicate IsIdentified(x: Listed) {
    x.node.Op? && HasId(x.node.op)
  }

  /** The operations among the first `n` members of a path item. */
  function ItemOperations(path: string, members: seq<Member>, n: nat): seq<Listed>
    requires n <= |members|
  {
    if n == 0 then []
    else
      var m := members[n - 1];
      ItemOperations(path, members, n - 1) + if IsHttp(m.key) then [Listed(Lower(m.key), path, m.node)] else []
  }

  /** The operations of the first `n` path items. */
  function PathOperations(paths: seq<PathEntry>, n: nat): seq<Listed>
    requires n <= |paths|
  {
    if n == 0 then []
    else
      var p := paths[n - 1];
      PathOperations(paths, n - 1) + ItemOperations(p.path, p.members, |p.members|)
  }

  function AllOperations(paths: seq<PathEntry>): seq<Listed> {
    PathOperations(paths, |paths|)
  }

  predicate IsMemberOperation(p: PathEntry, m: Member, x: Listed) {
    m in p.members && IsHttp(m.key) && x == Listed(Lower(m.key), p.path, m.node)
  }

  lemma {:induction false} ItemOperationsCome(p: PathEntry, n: nat, x: Listed)
    requires n <= |p.members|
    ensures x in ItemOperations(p.path, p.members, n) <==>
            exists m | m in p.members[..n] :: IsMemberOperation(p, m, x)
  {
    if n > 0 {
      ItemOperationsCome(p, n - 1, x);
      var last := p.members[n - 1];
      assert p.members[..n] == p.members[..n - 1] + [last];
      assert IsMemberOperation(p, last, x) <==> IsHttp(last.key) && x == Listed(Lower(last.key), p.path, last.node);
    }
  }

  lemma {:induction false} PathOperationsCome(paths: seq<PathEntry>, n: nat, x: Listed)
    requires n <= |paths|
    ensures x in PathOperations(paths, n) <==>
            exists p, m | p in paths[..n] && m in p.members :: IsMemberOperation(p, m, x)
  {
    if n > 0 {
      PathOperationsCome(paths, n - 1, x);
      var last := paths[n - 1];
      ItemOperationsCome(last, |last.members|, x);
      assert last.members[..|last.members|] == last.members;
      assert paths[..n] == paths[..n - 1] + [last];
    }
  }

  /** `_operations`; `None` stands for the conflict error about a missing operationId. */
  method Operations(paths: seq<PathEntry>) returns (listed: Option<seq<Listed>>)
    ensures listed.Some? <==> forall x | x in AllOperations(paths) :: IsIdentified(x)
    ensures listed.Some? ==> listed.value == AllOperations(paths)
  {
    var operations: seq<Listed> := [];
    for i := 0 to |paths|
      invariant operations == PathOperations(paths, i)
      invariant forall x | x in operations :: IsIdentified(x)
    {
      var path, members := paths[i].path, paths[i].members;
      for j := 0 to |members|
        invariant operations == PathOperations(paths, i) + ItemOperations(path, members, j)
        invariant forall x | x in operations :: IsIdentified(x)
      {
        if IsHttp(members[j].key) {
          var x := Listed(Lower(members[j].key), path, members[j].node);
          if !IsIdentified(x) {
            assert IsMemberOperation(paths[i], members[j], x);
            assert paths[..|paths|] == paths;
            PathOperationsCome(paths, |paths|, x);
            return None;
          }
          operations := operations + [x];
        }
      }
    }
    listed := Some(operations);
  }

  // ----- What a module's operation becomes -----------------------------------------

  const UNAVAILABLE_PROPERTIES: map<string, Doc> := map[
    "type" := Object(map["type" := Text("string")]),
    "title" := Object(map["type" := Text("string")]),
    "status" := Object(map["type" := Text("integer"), "const" := Number(503.0)]),
    "detail" := Object(map["type" := Text("string")]),
    "code" := Object(map["type" := Text("string")]),
    "message" := Object(map["type" := Text("string")]),
    "requestId" := Object(map["type" := Text("string")]),
    "retryable" := Object(map["type" := Text("boolean")])]

  const UNAVAILABLE_SCHEMA: map<string, Doc> := map[
    "type" := Text("object"),
    "additionalProperties" := Flag(false),
    "required" := List([Text("type"), Text("title"), Text("status"), Text("detail"), Text("code"),
                        Text("message"), Text("requestId"), Text("retryable")]),
    "properties" := Object(UNAVAILABLE_PROPERTIES)]

  const UNAVAILABLE: map<string, Doc> := map[
    "description" := Text("The owning module is unavailable."),
    "content" := Object(map["application/problem+json" := Object(map["schema" := Object(UNAVAILABLE_SCHEMA)])])]

  const UPSTREAM := "x-growthos-upstream-response"

  function UnavailableResponse(op: Operation): Doc {
    if op.responses.Some? && "503" in op.responses.value && op.responses.value["503"] !in {Null, Object(UNAVAILABLE)}
    then Object(UNAVAILABLE[UPSTREAM := op.responses.value["503"]])
    else Object(UNAVAILABLE)
  }

  /** `dict(pairs)`: the last pair of a key wins. */
  function TagMap(pairs: seq<(string, string)>): map<string, string> {
    if pairs == [] then map[] else TagMap(pairs[..|pairs| - 1])[pairs[|pairs| - 1].0 := pairs[|pairs| - 1].1]
  }

  function Owners(m: Module, op: Operation): set<string> {
    set tag | tag in op.tags && tag in TagMap(m.tagModules) :: TagMap(m.tagModules)[tag]
  }

  /** The module an operation belongs to; `None` when its tags do not name exactly one. */
  ghost predicate OwnedBy(m: Module, op: Operation, owner: string) {
    if m.tagModules == [] then owner == m.id else Owners(m, op) == {owner}
  }

  ghost predicate HasOwner(m: Module, op: Operation) {
    exists owner :: OwnedBy(m, op, owner)
  }

  /** `_operation_module`. */
  method OperationModule(m: Module, op: Operation) returns (owner: Option<string>)
    ensures owner.Some? <==> HasOwner(m, op)
    ensures owner.Some? ==> OwnedBy(m, op, owner.value)
  {
    if m.tagModules == [] {
      owner := Some(m.id);
      assert OwnedBy(m, op, m.id);
    } else {
      var matches := Owners(m, op);
      if |matches| != 1 {
        return None;
      }
      var only :| only in matches;
      assert matches == {only} by { assert |matches - {only}| == 0; }
      owner := Some(only);
      assert OwnedBy(m, op, only);
    }
  }

  lemma OwnerIsUnique(m: Module, op: Operation, a: string, b: string)
    requires OwnedBy(m, op, a) && OwnedBy(m, op, b)
    ensures a == b
  {
    if m.tagModules != [] { assert a in {b}; }
  }

  /** The operation as it appears in the aggregate. */
  function Published(op: Operation, owner: string): Operation {
    op.(owner := Some(Text(owner)),
        responses := Some((if op.responses.Some? then op.responses.value else map[])
                          ["503" := UnavailableResponse(op)]))
  }

  ghost function Owner(m: Module, op: Operation): (owner: string)
    requires HasOwner(m, op)
    ensures OwnedBy(m, op, owner)
  {
    var owner :| OwnedBy(m, op, owner);
    owner
  }

  // ----- What is published, field by field -----------------------------------------

  /** `get("responses", {}).get(status)`. */
  function ResponseOf(op: Operation, status: string): Option<Doc> {
    if op.responses.Some? && status in op.responses.value then Some(op.responses.value[status]) else None
  }

  /** The value under a list of names. */
  function Under(d: Doc, names: seq<string>): Option<Doc>
    decreases names
  {
    if names == [] then Some(d)
    else if d.Object? && names[0] in d.fields then Under(d.fields[names[0]], names[1..])
    else None
  }

  function Schema(d: Doc): Option<Doc> {
    Under(d, ["content", "application/problem+json", "schema"])
  }

  /** The response that says that a module is down: a problem object with eight fields. */
  predicate IsStandard(d: Doc) {
    && d.Object? && d.fields.Keys == {"description", "content"}
    && Under(d, ["description"]) == Some(Text("The owning module is unavailable."))
    && Schema(d).Some? && IsProblemSchema(Schema(d).value)
  }

  predicate IsProblemSchema(schema: Doc) {
    && schema.Object? && schema.fields.Keys == {"type", "additionalProperties", "required", "properties"}
    && schema.fields["type"] == Text("object") && schema.fields["additionalProperties"] == Flag(false)
    && schema.fields["required"] ==
       List([Text("type"), Text("title"), Text("status"), Text("detail"), Text("code"), Text("message"),
             Text("requestId"), Text("retryable")])
    && AreProblemProperties(schema.fields["properties"])
  }

  predicate AreProblemProperties(properties: Doc) {
    && properties.Object?
    && properties.fields.Keys == {"type", "title", "status", "detail", "code", "message", "requestId", "retryable"}
    && (forall name | name in properties.fields && name != "status" && name != "retryable" ::
          properties.fields[name] == Object(map["type" := Text("string")]))
    && properties.fields["status"] == Object(map["type" := Text("integer"), "const" := Number(503.0)])
    && properties.fields["retryable"] == Object(map["type" := Text("boolean")])
  }

  lemma PropertiesAreStandard()
    ensures AreProblemProperties(Object(UNAVAILABLE_PROPERTIES))
  {
  }

  lemma SchemaIsStandard()
    ensures IsProblemSchema(Object(UNAVAILABLE_SCHEMA))
  {
    PropertiesAreStandard();
  }

  lemma UnavailableIsStandard()
    ensures IsStandard(Object(UNAVAILABLE))
  {
    SchemaIsStandard();
    assert Schema(Object(UNAVAILABLE)) == Some(Object(UNAVAILABLE_SCHEMA)) by {
      var content := UNAVAILABLE["content"];
      var problem := content.fields["application/problem+json"];
      assert Under(problem, ["schema"]) == Under(problem.fields["schema"], []);
    }
  }

  /** A published 503 response is the standard one, with the module's own kept beside it if that
      is neither null nor the standard one already. */
  predicate IsUnavailable(value: Doc, own: Option<Doc>) {
    && value.Object?
    && var standard := Object(value.fields - {"x-growthos-upstream-response"});
       && IsStandard(standard)
       && (if own.Some? && own.value != Null && own.value != standard
           then Under(value, ["x-growthos-upstream-response"]) == own
           else "x-growthos-upstream-response" !in value.fields)
  }

  lemma UnavailableResponseHolds(op: Operation)
    ensures IsUnavailable(UnavailableResponse(op), ResponseOf(op, "503"))
  {
    UnavailableIsStandard();
    WithUpstream(UNAVAILABLE, ResponseOf(op, "503"));
  }

  lemma WithUpstream(standard: map<string, Doc>, own: Option<Doc>)
    requires IsStandard(Object(standard))
    ensures IsUnavailable(if own.Some? && own.value !in {Null, Object(standard)}
                          then Object(standard[UPSTREAM := own.value]) else Object(standard), own)
  {
    assert UPSTREAM !in {"description", "content"};
    if own.Some? {
      assert standard[UPSTREAM := own.value] - {UPSTREAM} == standard;
      assert Under(own.value, []) == own;
    }
    assert standard - {UPSTREAM} == standard;
  }

  /** Only the owner mark and the 503 response are new. */
  ghost predicate IsPublishedAs(op: Operation, published: Operation, owner: string) {
    && published == op.(owner := Some(Text(owner)), responses := published.responses)
    && (forall status | status != "503" :: ResponseOf(published, status) == ResponseOf(op, status))
    && ResponseOf(published, "503").Some?
    && IsUnavailable(ResponseOf(published, "503").value, ResponseOf(op, "503"))
  }

  lemma PublishedChangesLittle(op: Operation, owner: string)
    ensures IsPublishedAs(op, Published(op, owner), owner)
  {
    UnavailableResponseHolds(op);
  }

  // ----- Owners, tag by tag --------------------------------------------------------

  /** The last pair of the tag names the module. */
  ghost predicate Names(pairs: seq<(string, string)>, tag: string, owner: string) {
    exists i :: 0 <= i < |pairs| && pairs[i] == (tag, owner) && forall j | i < j < |pairs| :: pairs[j].0 != tag
  }

  lemma {:induction false} TagMapNames(pairs: seq<(string, string)>, tag: string, owner: string)
    ensures tag in TagMap(pairs) && TagMap(pairs)[tag] == owner <==> Names(pairs, tag, owner)
  {
    if pairs != [] {
      var init, last := pairs[..|pairs| - 1], pairs[|pairs| - 1];
      TagMapNames(init, tag, owner);
      if last.0 == tag {
        assert pairs[|pairs| - 1] == last;
      } else if Names(init, tag, owner) {
        var i :| 0 <= i < |init| && init[i] == (tag, owner) && forall j | i < j < |init| :: init[j].0 != tag;
        assert pairs[i] == (tag, owner) && forall j | i < j < |pairs| :: pairs[j].0 != tag;
      }
    }
  }

  /** An operation belongs to the module that its tags name, when they name one and no other, and to
      the module it comes from when that has no tag map. */
  lemma OwnedByTags(m: Module, op: Operation, owner: string)
    ensures m.tagModules == [] ==> (OwnedBy(m, op, owner) <==> owner == m.id)
    ensures m.tagModules != [] ==>
              (OwnedBy(m, op, owner) <==>
                && (exists tag | tag in op.tags :: Names(m.tagModules, tag, owner))
                && (forall tag, other | tag in op.tags && Names(m.tagModules, tag, other) :: other == owner))
  {
    if m.tagModules == [] { return; }
    forall tag, other { TagMapNames(m.tagModules, tag, other); }
    if OwnedBy(m, op, owner) {
      assert owner in Owners(m, op);
      forall tag, other | tag in op.tags && Names(m.tagModules, tag, other) ensures other == owner {
        assert other in Owners(m, op);
      }
    }
    if && (exists tag | tag in op.tags :: Names(m.tagModules, tag, owner))
       && (forall tag, other | tag in op.tags && Names(m.tagModules, tag, other) :: other == owner)
    {
      var tag :| tag in op.tags && Names(m.tagModules, tag, owner);
      assert TagMap(m.tagModules)[tag] in Owners(m, op);
      forall other | other in Owners(m, op) ensures other == owner {
        var t :| t in op.tags && t in TagMap(m.tagModules) && TagMap(m.tagModules)[t] == other;
        TagMapNames(m.tagModules, t, other);
      }
      assert Owners(m, op) == {owner};
    }
  }

  // ----- Methods and ids -----------------------------------------------------------

  /** The same text but for the case of letters A to Z. */
  predicate SameButCase(s: string, lower: string) {
    && |s| == |lower|
    && forall i | 0 <= i < |s| ::
         s[i] == lower[i] || ('A' <= s[i] <= 'Z' && lower[i] as int == s[i] as int + 32)
  }

  /** A key of a path item is an operation when it is one of eight words in any case. */
  lemma HttpMethods(key: string)
    ensures IsHttp(key) <==>
            || SameButCase(key, "delete") || SameButCase(key, "get") || SameButCase(key, "head")
            || SameButCase(key, "options") || SameButCase(key, "patch") || SameButCase(key, "post")
            || SameButCase(key, "put") || SameButCase(key, "trace")
  {
    forall word | word in HTTP_METHODS ensures Lower(key) == word <==> SameButCase(key, word) {
      LowerIsSameButCase(key, word);
    }
  }

  lemma LowerIsSameButCase(key: string, word: string)
    requires forall c | c in word :: 'a' <= c <= 'z'
    ensures Lower(key) == word <==> SameButCase(key, word)
  {
    assert forall i | 0 <= i < |word| :: word[i] in word;
    if SameButCase(key, word) {
      assert forall i | 0 <= i < |key| :: Lower(key)[i] == word[i];
    } else if |key| == |word| {
      var i :| 0 <= i < |key| && !(key[i] == word[i] || ('A' <= key[i] <= 'Z' && word[i] as int == key[i] as int + 32));
      assert Lower(key)[i] != word[i];
    }
  }

  /** The id of an operation is the text under its operationId, which must not be blank. */
  lemma IdentifiedByText(op: Operation)
    ensures HasId(op) <==> exists id :: op.operationId == Some(Text(id)) && Strip(id) != ""
    ensures HasId(op) ==> op.operationId == Some(Text(Id(op)))
  {
    if op.operationId.Some? && op.operationId.value.Text? {
      StripIsEmptyIffBlank(op.operationId.value.s);
    }
  }
}
