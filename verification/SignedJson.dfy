/** What the gateway's signed texts are made of. JSON text, SHA-256 and HMAC are parameters. */
module SignedJson {
  import opened Options
  import opened PythonText
  import opened Base64Url

  // ----- Payload values, as `json.loads` returns them -------------------------------

  /** A float is known by its text. */
  datatype Value =
    | Null | Bool(b: bool) | Int(i: int) | Float(text: string) | Str(s: string)
    | List(items: seq<Value>) | Dict(entries: map<string, Value>)

  datatype Libraries = Libraries(
    dumps: Value -> seq<Byte>,
    loads: seq<Byte> -> Option<Value>,
    sha256: string -> string,
    hmac: (seq<Byte>, string) -> seq<Byte>)

  predicate IsHexDigit(c: char) { '0' <= c <= '9' || 'a' <= c <= 'f' }

  lemma HexDigits(c: char)
    ensures IsHexDigit(c) <==> c in "0123456789abcdef"
  {
  }

  /** What the libraries promise: parsing undoes writing, a text is never empty, and digests
      have their lengths. Nothing is assumed about collisions. */
  ghost predicate Lawful(lib: Libraries) {
    && (forall v :: lib.loads(lib.dumps(v)) == Some(v) && lib.dumps(v) != [])
    && (forall s :: |lib.sha256(s)| == 64 && forall c | c in lib.sha256(s) :: IsHexDigit(c))
    && (forall k, t :: |lib.hmac(k, t)| == 32)
  }

  datatype Actor = Actor(userId: string, sessionId: string, roles: seq<string>)
  datatype Tenant = Tenant(organizationId: string, workspaceId: string)
  datatype Project = Project(websiteProjectId: string, websiteProjectKey: string)

  function Get(v: Value, name: string): Option<Value> {
    if v.Dict? && name in v.entries then Some(v.entries[name]) else None
  }

  function Strings(texts: seq<string>): (v: Value)
    ensures v.List? && |v.items| == |texts| && forall i | 0 <= i < |texts| :: v.items[i] == Str(texts[i])
  {
    List(seq(|texts|, i requires 0 <= i < |texts| => Str(texts[i])))
  }

  /** Not empty, and `strip` leaves it alone. */
  predicate IsIdentifier(s: string) {
    s != "" && !IsSpace(s[0]) && !IsSpace(s[|s| - 1])
  }

  /** An identifier is a text that is not empty and that `strip` does not change. */
  lemma IdentifierIsStripped(s: string)
    ensures IsIdentifier(s) <==> s != "" && Strip(s) == s
  {
    StripLeaves(s);
  }

  /** The value under two names. */
  function GetIn(v: Value, outer: string, inner: string): Option<Value> {
    if Get(v, outer).Some? then Get(Get(v, outer).value, inner) else None
  }
}
