/** The signed request context that the platform gateway sends to the Backlinks core. */
module PlatformContext {
  import opened Options
  import opened Base64Url
  import opened PythonText
  import opened SignedJson

  // ----- Sorted lists of distinct texts --------------------------------------------

  /** Text order by code point. */
  predicate Less(a: string, b: string) {
    b != "" && (a == "" || a[0] < b[0] || (a[0] == b[0] && Less(a[1..], b[1..])))
  }

  lemma {:induction false} LessIsTotal(a: string, b: string)
    ensures Less(a, b) || Less(b, a) || a == b
    ensures !(Less(a, b) && Less(b, a)) && !Less(a, a)
    decreases |a|
  {
    if a != "" && b != "" && a[0] == b[0] {
      LessIsTotal(a[1..], b[1..]);
      assert a[1..] == b[1..] ==> a == [a[0]] + a[1..] == b;
    }
    if a != "" { LessIsTotal(a[1..], a[1..]); }
  }

  lemma {:induction false} LessIsTransitive(a: string, b: string, c: string)
    requires Less(a, b) && Less(b, c)
    ensures Less(a, c)
    decreases |a|
  {
    if a != "" && a[0] == b[0] == c[0] { LessIsTransitive(a[1..], b[1..], c[1..]); }
  }

  predicate Ascending(s: seq<string>) {
    forall i, j | 0 <= i < j < |s| :: Less(s[i], s[j])
  }

  function Elements(s: seq<string>): set<string> {
    set x | x in s
  }

  function Insert(x: string, s: seq<string>): (r: seq<string>)
    requires Ascending(s)
    ensures Ascending(r) && Elements(r) == Elements(s) + {x}
    ensures |r| == |s| + if x in s then 0 else 1
  {
    if s == [] then [x]
    else if x == s[0] then s
    else if Less(x, s[0]) then
      InsertFirst(x, s);
      [x] + s
    else
      var rest := Insert(x, s[1..]);
      LessIsTotal(x, s[0]);
      InsertLater(x, s, rest);
      [s[0]] + rest
  }

  lemma InsertFirst(x: string, s: seq<string>)
    requires Ascending(s) && s != [] && Less(x, s[0])
    ensures Ascending([x] + s) && x !in s
  {
    forall i | 0 <= i < |s| ensures Less(x, s[i]) && x != s[i] {
      if i > 0 { LessIsTransitive(x, s[0], s[i]); }
      LessIsTotal(x, s[i]);
    }
  }

  lemma ElementsWithFirst(first: string, rest: seq<string>)
    ensures Elements([first] + rest) == {first} + Elements(rest)
  {
    forall x ensures x in Elements([first] + rest) <==> x in {first} + Elements(rest) {
      assert x in [first] + rest <==> x == first || x in rest;
    }
  }

  lemma InsertLater(x: string, s: seq<string>, rest: seq<string>)
    requires Ascending(s) && s != [] && Less(s[0], x)
    requires Ascending(rest) && Elements(rest) == Elements(s[1..]) + {x}
    ensures Ascending([s[0]] + rest)
    ensures Elements([s[0]] + rest) == Elements(s) + {x}
  {
    assert s == [s[0]] + s[1..];
    ElementsWithFirst(s[0], s[1..]);
    ElementsWithFirst(s[0], rest);
    forall i | 0 <= i < |rest| ensures Less(s[0], rest[i]) {
      assert rest[i] in Elements(rest);
      if rest[i] != x {
        var j :| 0 <= j < |s[1..]| && s[1..][j] == rest[i];
        assert s[j + 1] == rest[i];
      }
    }
  }

  /** `sorted({value for value in values})`. */
  function SortedSet(values: seq<string>): (r: seq<string>)
    ensures Ascending(r) && Elements(r) == Elements(values)
  {
    if values == [] then []
    else
      assert values == [values[0]] + values[1..];
      Insert(values[0], SortedSet(values[1..]))
  }

  /** A set of texts has one ascending list. */
  lemma {:induction false} AscendingIsUnique(a: seq<string>, b: seq<string>)
    requires Ascending(a) && Ascending(b) && Elements(a) == Elements(b)
    ensures a == b
    decreases |a|
  {
    assert forall i | 0 <= i < |a| :: a[i] in Elements(a);
    assert forall i | 0 <= i < |b| :: b[i] in Elements(b);
    if a != [] && b != [] {
      FirstIsLeast(a, b);
      FirstIsLeast(b, a);
      LessIsTotal(a[0], b[0]);
      RestElements(a);
      RestElements(b);
      AscendingIsUnique(a[1..], b[1..]);
      assert a == [a[0]] + a[1..] && b == [b[0]] + b[1..];
    }
  }

  lemma FirstIsLeast(a: seq<string>, b: seq<string>)
    requires Ascending(a) && a != [] && b != [] && Elements(a) == Elements(b)
    ensures a[0] == b[0] || Less(a[0], b[0])
  {
    assert b[0] in Elements(b);
    var j :| 0 <= j < |a| && a[j] == b[0];
  }

  lemma RestElements(a: seq<string>)
    requires Ascending(a) && a != []
    ensures Elements(a[1..]) == Elements(a) - {a[0]} && Ascending(a[1..])
  {
    forall i | 1 <= i < |a| ensures a[i] != a[0] { LessIsTotal(a[0], a[i]); }
    assert a == [a[0]] + a[1..];
    forall x | x in a[1..] ensures x != a[0] {
      var i :| 0 <= i < |a[1..]| && a[1..][i] == x;
      assert a[i + 1] == x;
    }
  }

  // ----- Validation ----------------------------------------------------------------

  predicate IsShortIdentifier(s: string) {
    IsIdentifier(s) && |s| <= 200
  }

  /** The list in its canonical order, or `None` when it is refused. */
  function NormalizeValues(values: seq<string>, maximum: nat): Option<seq<string>> {
    if values == [] || |values| > maximum || exists v | v in values :: !IsShortIdentifier(v) then None
    else if |SortedSet(values)| != |values| then None
    else Some(SortedSet(values))
  }

  predicate IsNamespacePart(s: string) {
    && s != "" && 'a' <= s[0] <= 'z'
    && forall c | c in s :: 'a' <= c <= 'z' || '0' <= c <= '9' || c in "_.-"
  }

  /** `namespace:action`. */
  predicate IsPermission(s: string) {
    exists i | 0 <= i < |s| :: s[i] == ':' && IsNamespacePart(s[..i]) && IsNamespacePart(s[i + 1..])
  }

  // ----- Issue ---------------------------------------------------------------------

  /** A collection request has no project. */
  datatype Request = Request(
    actor: Actor, tenant: Tenant, project: Option<Project>, permissions: seq<string>, correlationId: string)

  const MIN_KEY_BYTES := 32
  const MAX_TTL_SECONDS := 60
  const MAX_PERMISSIONS := 128
  const MAX_ROLES := 32
  const VERSION := "PlatformRequestContext.v1"
  const ISSUER := "growthos-platform-gateway"
  const AUDIENCE := "growthos-backlinks-core"

  datatype Headers = Headers(context: string, signature: string)

  /** The two formatted moments of a request. */
  datatype Moments = Moments(issuedAt: string, expiresAt: string)

  predicate Identifiers(r: Request) {
    && IsShortIdentifier(r.actor.sessionId) && IsShortIdentifier(r.actor.userId)
    && IsShortIdentifier(r.correlationId)
    && (r.project.Some? ==> IsShortIdentifier(r.project.value.websiteProjectId)
                            && IsShortIdentifier(r.project.value.websiteProjectKey))
    && IsShortIdentifier(r.tenant.organizationId) && IsShortIdentifier(r.tenant.workspaceId)
  }

  /** The payload, or `None` when some value is refused. */
  function Payload(r: Request, m: Moments): Option<Value> {
    var permissions := NormalizeValues(r.permissions, MAX_PERMISSIONS);
    var roles := NormalizeValues(r.actor.roles, MAX_ROLES);
    if permissions.None? || (exists p | p in permissions.value :: !IsPermission(p)) then None
    else if roles.None? || !Identifiers(r) then None
    else Some(Dict(map[
      "actor" := ActorPart(r.actor, roles.value),
      "audience" := Str(AUDIENCE),
      "correlationId" := Str(r.correlationId),
      "expiresAt" := Str(m.expiresAt),
      "issuedAt" := Str(m.issuedAt),
      "issuer" := Str(ISSUER),
      "permissions" := Strings(permissions.value),
      "project" := ProjectPart(r.project),
      "tenant" := TenantPart(r.tenant),
      "version" := Str(VERSION)]))
  }

  function ActorPart(actor: Actor, roles: seq<string>): Value {
    Dict(map["roles" := Strings(roles), "sessionId" := Str(actor.sessionId), "userId" := Str(actor.userId)])
  }

  function TenantPart(tenant: Tenant): Value {
    Dict(map["organizationId" := Str(tenant.organizationId), "workspaceId" := Str(tenant.workspaceId)])
  }

  function ProjectPart(project: Option<Project>): Value {
    if project.None? then Null
    else Dict(map["websiteProjectId" := Str(project.value.websiteProjectId),
                  "websiteProjectKey" := Str(project.value.websiteProjectKey)])
  }

  /** `stamp` formats a moment in UTC with milliseconds; `None` stands for the error raised for
      a moment without a time zone. */
  function Issue(lib: Libraries, key: seq<Byte>, r: Request, now: int, ttlSeconds: int,
                 stamp: int -> Option<string>): Option<Headers>
  {
    if |key| < MIN_KEY_BYTES || ttlSeconds < 1 || ttlSeconds > MAX_TTL_SECONDS then None
    else if stamp(now).None? || stamp(now + ttlSeconds * 1_000_000).None? then None
    else
      var payload := Payload(r, Moments(stamp(now).value, stamp(now + ttlSeconds * 1_000_000).value));
      if payload.None? then None
      else
        var encoded := Encode(lib.dumps(payload.value));
        Some(Headers(encoded, "v1=" + Encode(lib.hmac(key, VERSION + "." + encoded))))
  }

  // ----- The text is canonical -----------------------------------------------------

  /** The same request, up to the order in which roles and permissions are listed. */
  predicate SameRequest(r: Request, q: Request) {
    && (r.actor.userId, r.actor.sessionId) == (q.actor.userId, q.actor.sessionId)
    && Elements(r.actor.roles) == Elements(q.actor.roles)
    && r.tenant == q.tenant && r.project == q.project && r.correlationId == q.correlationId
    && Elements(r.permissions) == Elements(q.permissions)
  }

  lemma NormalizedIsCanonical(a: seq<string>, b: seq<string>, maximum: nat)
    requires NormalizeValues(a, maximum).Some? && NormalizeValues(b, maximum).Some?
    ensures NormalizeValues(a, maximum) == NormalizeValues(b, maximum) <==> Elements(a) == Elements(b)
  {
    if Elements(a) == Elements(b) {
      AscendingIsUnique(SortedSet(a), SortedSet(b));
    }
  }

  lemma StringsAreInjective(a: seq<string>, b: seq<string>)
    ensures Strings(a) == Strings(b) <==> a == b
  {
    if Strings(a) == Strings(b) {
      forall i | 0 <= i < |a| ensures a[i] == b[i] {
        assert Strings(a).items[i] == Strings(b).items[i];
      }
    }
  }

  lemma PayloadFields(r: Request, m: Moments)
    requires Payload(r, m).Some?
    ensures var v := Payload(r, m).value;
            && Get(v, "permissions") == Some(Strings(NormalizeValues(r.permissions, MAX_PERMISSIONS).value))
            && Get(v, "actor") == Some(ActorPart(r.actor, NormalizeValues(r.actor.roles, MAX_ROLES).value))
            && Get(v, "correlationId") == Some(Str(r.correlationId))
            && Get(v, "issuedAt") == Some(Str(m.issuedAt)) && Get(v, "expiresAt") == Some(Str(m.expiresAt))
            && Get(v, "project") == Some(ProjectPart(r.project))
            && Get(v, "tenant") == Some(TenantPart(r.tenant))
  {
    PayloadWho(r, m);
    PayloadWhere(r, m);
    PayloadWhen(r, m);
  }

  lemma PayloadWho(r: Request, m: Moments)
    requires Payload(r, m).Some?
    ensures var v := Payload(r, m).value;
            && Get(v, "permissions") == Some(Strings(NormalizeValues(r.permissions, MAX_PERMISSIONS).value))
            && Get(v, "actor") == Some(ActorPart(r.actor, NormalizeValues(r.actor.roles, MAX_ROLES).value))
  {
  }

  lemma PayloadWhere(r: Request, m: Moments)
    requires Payload(r, m).Some?
    ensures var v := Payload(r, m).value;
            && Get(v, "project") == Some(ProjectPart(r.project))
            && Get(v, "tenant") == Some(TenantPart(r.tenant))
  {
  }

  lemma PayloadWhen(r: Request, m: Moments)
    requires Payload(r, m).Some?
    ensures var v := Payload(r, m).value;
            && Get(v, "correlationId") == Some(Str(r.correlationId))
            && Get(v, "issuedAt") == Some(Str(m.issuedAt)) && Get(v, "expiresAt") == Some(Str(m.expiresAt))
  {
  }

  lemma ActorPartIsInjective(a: Actor, ra: seq<string>, b: Actor, rb: seq<string>)
    ensures ActorPart(a, ra) == ActorPart(b, rb) <==>
            (a.userId, a.sessionId) == (b.userId, b.sessionId) && ra == rb
  {
    var v, w := ActorPart(a, ra), ActorPart(b, rb);
    StringsAreInjective(ra, rb);
    if v == w {
      assert Get(v, "roles") == Get(w, "roles");
      assert Get(v, "sessionId") == Get(w, "sessionId");
      assert Get(v, "userId") == Get(w, "userId");
    }
  }

  lemma TenantPartIsInjective(a: Tenant, b: Tenant)
    ensures TenantPart(a) == TenantPart(b) <==> a == b
  {
    if TenantPart(a) == TenantPart(b) {
      assert Get(TenantPart(a), "organizationId") == Get(TenantPart(b), "organizationId");
      assert Get(TenantPart(a), "workspaceId") == Get(TenantPart(b), "workspaceId");
    }
  }

  lemma ProjectPartIsInjective(a: Option<Project>, b: Option<Project>)
    ensures ProjectPart(a) == ProjectPart(b) <==> a == b
  {
    if a.Some? && b.Some? && ProjectPart(a) == ProjectPart(b) {
      assert Get(ProjectPart(a), "websiteProjectId") == Get(ProjectPart(b), "websiteProjectId");
      assert Get(ProjectPart(a), "websiteProjectKey") == Get(ProjectPart(b), "websiteProjectKey");
    }
  }

  /** Two accepted requests have the same payload exactly when they are the same request at the
      same formatted moments. */
  lemma PayloadIsCanonical(r: Request, m: Moments, q: Request, n: Moments)
    requires Payload(r, m).Some? && Payload(q, n).Some?
    ensures Payload(r, m) == Payload(q, n) <==> SameRequest(r, q) && m == n
  {
    var (pr, pq) := (NormalizeValues(r.permissions, MAX_PERMISSIONS), NormalizeValues(q.permissions, MAX_PERMISSIONS));
    var (rr, rq) := (NormalizeValues(r.actor.roles, MAX_ROLES), NormalizeValues(q.actor.roles, MAX_ROLES));
    NormalizedIsCanonical(r.permissions, q.permissions, MAX_PERMISSIONS);
    NormalizedIsCanonical(r.actor.roles, q.actor.roles, MAX_ROLES);
    if Payload(r, m) == Payload(q, n) {
      PayloadFields(r, m);
      PayloadFields(q, n);
      StringsAreInjective(pr.value, pq.value);
      ActorPartIsInjective(r.actor, rr.value, q.actor, rq.value);
      TenantPartIsInjective(r.tenant, q.tenant);
      ProjectPartIsInjective(r.project, q.project);
    } else if SameRequest(r, q) && m == n {
      ActorPartIsInjective(r.actor, rr.value, q.actor, rq.value);
    }
  }

  /** The header text identifies the request: two issued contexts carry the same text exactly
      when they are the same request, whatever the order of roles and permissions, at the same
      moments; and then, under one key, the whole headers agree. */
  lemma HeaderIdentifiesRequest(
    lib: Libraries, key: seq<Byte>, r: Request, now: int, ttl: int,
    q: Request, later: int, otherTtl: int, stamp: int -> Option<string>)
    requires Lawful(lib)
    requires Issue(lib, key, r, now, ttl, stamp).Some? && Issue(lib, key, q, later, otherTtl, stamp).Some?
    ensures var h, g := Issue(lib, key, r, now, ttl, stamp).value, Issue(lib, key, q, later, otherTtl, stamp).value;
            && (h.context == g.context <==>
                SameRequest(r, q) && stamp(now) == stamp(later)
                && stamp(now + ttl * 1_000_000) == stamp(later + otherTtl * 1_000_000))
            && (h.context == g.context ==> h == g)
  {
    var m := Moments(stamp(now).value, stamp(now + ttl * 1_000_000).value);
    var n := Moments(stamp(later).value, stamp(later + otherTtl * 1_000_000).value);
    PayloadIsCanonical(r, m, q, n);
    var a, b := Payload(r, m).value, Payload(q, n).value;
    if Encode(lib.dumps(a)) == Encode(lib.dumps(b)) {
      EncodeIsInjective(lib.dumps(a), lib.dumps(b));
      assert lib.loads(lib.dumps(a)) == Some(a) && lib.loads(lib.dumps(b)) == Some(b);
    }
  }

  /** A request is refused or accepted whatever the order of its roles and permissions. */
  lemma AcceptanceIgnoresOrder(a: seq<string>, b: seq<string>, maximum: nat)
    requires multiset(a) == multiset(b)
    ensures NormalizeValues(a, maximum) == NormalizeValues(b, maximum)
  {
    assert |a| == |multiset(a)| == |multiset(b)| == |b|;
    forall x ensures x in a <==> x in b {
      assert x in multiset(a) <==> x in multiset(b);
    }
    assert Elements(a) == Elements(b);
    AscendingIsUnique(SortedSet(a), SortedSet(b));
  }

  // ----- What is accepted ----------------------------------------------------------

  predicate DiffersAt(a: string, b: string, i: nat) {
    i < |a| && i < |b| && a[..i] == b[..i] && a[i] < b[i]
  }

  lemma DiffersLater(a: string, b: string, i: nat)
    requires a != "" && b != "" && a[0] == b[0]
    ensures DiffersAt(a, b, i + 1) <==> DiffersAt(a[1..], b[1..], i)
    ensures !DiffersAt(a, b, 0)
  {
    if i < |a| - 1 && i < |b| - 1 {
      assert a[..i + 1] == [a[0]] + a[1..][..i] && b[..i + 1] == [b[0]] + b[1..][..i];
      assert a[1..][..i] == a[..i + 1][1..] && b[1..][..i] == b[..i + 1][1..];
    }
  }

  lemma DiffersAtFirst(a: string, b: string, i: nat)
    requires a != "" && b != "" && a[0] != b[0]
    ensures DiffersAt(a, b, i) ==> i == 0
  {
    if 0 < i <= |a| && i <= |b| {
      assert a[..i][0] == a[0] && b[..i][0] == b[0];
    }
  }

  lemma PrefixLater(a: string, b: string)
    requires a != "" && b != "" && a[0] == b[0]
    ensures a < b <==> a[1..] < b[1..]
  {
    assert a == [a[0]] + a[1..] && b == [b[0]] + b[1..];
  }

  /** The order is that of the first code point that differs, and a prefix comes first. */
  lemma {:induction false} LessIsCodePointOrder(a: string, b: string)
    ensures Less(a, b) <==> a < b || exists i: nat :: DiffersAt(a, b, i)
    decreases |a|
  {
    if a != "" && b != "" && a[0] == b[0] {
      LessIsCodePointOrder(a[1..], b[1..]);
      PrefixLater(a, b);
      if i: nat :| DiffersAt(a[1..], b[1..], i) { DiffersLater(a, b, i); }
      if i: nat :| DiffersAt(a, b, i) {
        DiffersLater(a, b, if i > 0 then i - 1 else 0);
      }
    } else if a != "" && b != "" {
      assert DiffersAt(a, b, 0) <==> a[0] < b[0];
      forall i: nat { DiffersAtFirst(a, b, i); }
    }
  }

  predicate AreDistinct(values: seq<string>) {
    forall i, j | 0 <= i < j < |values| :: values[i] != values[j]
  }

  lemma {:induction false} SortedSetLength(values: seq<string>)
    ensures |SortedSet(values)| <= |values|
    ensures |SortedSet(values)| == |values| <==> AreDistinct(values)
  {
    if values != [] {
      var rest := values[1..];
      SortedSetLength(rest);
      assert values[0] in SortedSet(rest) <==> values[0] in Elements(SortedSet(rest));
      assert values[0] in rest <==> values[0] in Elements(rest);
      assert AreDistinct(values) <==> AreDistinct(rest) && values[0] !in rest by {
        assert forall i | 0 <= i < |rest| :: rest[i] == values[i + 1];
      }
    }
  }

  /** A list is accepted when it has one to `maximum` values, all identifiers of at most 200
      characters and all different; it comes back in ascending order. */
  lemma NormalizeAccepts(values: seq<string>, maximum: nat)
    ensures NormalizeValues(values, maximum).Some? <==>
            && 1 <= |values| <= maximum && AreDistinct(values)
            && forall v | v in values :: v != "" && Strip(v) == v && |v| <= 200
    ensures NormalizeValues(values, maximum).Some? ==>
              && Ascending(NormalizeValues(values, maximum).value)
              && Elements(NormalizeValues(values, maximum).value) == Elements(values)
  {
    SortedSetLength(values);
    forall v ensures IsIdentifier(v) <==> v != "" && Strip(v) == v { IdentifierIsStripped(v); }
  }

  const PERMISSION_LETTERS := "abcdefghijklmnopqrstuvwxyz0123456789_.-"

  predicate IsPermissionPart(s: string) {
    s != "" && s[0] in "abcdefghijklmnopqrstuvwxyz" && forall c | c in s :: c in PERMISSION_LETTERS
  }

  lemma PartLetters(c: char)
    ensures 'a' <= c <= 'z' <==> c in "abcdefghijklmnopqrstuvwxyz"
    ensures 'a' <= c <= 'z' || '0' <= c <= '9' || c in "_.-" <==> c in PERMISSION_LETTERS
  {
  }

  lemma PartIsNamespacePart(s: string)
    ensures IsNamespacePart(s) <==> IsPermissionPart(s)
  {
    forall c { PartLetters(c); }
  }

  lemma TwoWordsArePermission(space: string, action: string)
    requires IsPermissionPart(space) && IsPermissionPart(action)
    ensures IsPermission(space + ":" + action)
  {
    var s, i := space + ":" + action, |space|;
    PartIsNamespacePart(space);
    PartIsNamespacePart(action);
    assert s[..i] == space && s[i] == ':' && s[i + 1..] == action;
  }

  lemma PermissionHasTwoWords(s: string) returns (space: string, action: string)
    requires IsPermission(s)
    ensures s == space + ":" + action && IsPermissionPart(space) && IsPermissionPart(action)
  {
    var i :| 0 <= i < |s| && s[i] == ':' && IsNamespacePart(s[..i]) && IsNamespacePart(s[i + 1..]);
    space, action := s[..i], s[i + 1..];
    SplitAround(s, i);
    PartIsNamespacePart(space);
    PartIsNamespacePart(action);
  }

  lemma SplitAround(s: string, i: nat)
    requires i < |s| && s[i] == ':'
    ensures s == s[..i] + ":" + s[i + 1..]
  {
  }

  ghost predicate IsTwoWords(s: string, space: string, action: string) {
    s == space + ":" + action && IsPermissionPart(space) && IsPermissionPart(action)
  }

  /** A permission is two words with a colon in between. */
  lemma PermissionIsTwoWords(s: string)
    ensures IsPermission(s) <==> exists space, action :: IsTwoWords(s, space, action)
  {
    if IsPermission(s) {
      var space, action := PermissionHasTwoWords(s);
      assert IsTwoWords(s, space, action);
    }
    if space, action :| IsTwoWords(s, space, action) {
      TwoWordsArePermission(space, action);
    }
  }

  // ----- What is sent, field by field ----------------------------------------------

  lemma IssuedTenant(r: Request, m: Moments)
    requires Payload(r, m).Some?
    ensures var p := Payload(r, m).value;
            && GetIn(p, "tenant", "organizationId") == Some(Str(r.tenant.organizationId))
            && GetIn(p, "tenant", "workspaceId") == Some(Str(r.tenant.workspaceId))
  {
    PayloadWhere(r, m);
  }

  lemma IssuedProject(r: Request, m: Moments)
    requires Payload(r, m).Some?
    ensures var p := Payload(r, m).value;
            match r.project
            case None => Get(p, "project") == Some(Null)
            case Some(project) =>
              && GetIn(p, "project", "websiteProjectId") == Some(Str(project.websiteProjectId))
              && GetIn(p, "project", "websiteProjectKey") == Some(Str(project.websiteProjectKey))
  {
    PayloadWhere(r, m);
  }

  lemma IssuedActor(r: Request, m: Moments)
    requires Payload(r, m).Some?
    ensures var p := Payload(r, m).value;
            && GetIn(p, "actor", "userId") == Some(Str(r.actor.userId))
            && GetIn(p, "actor", "sessionId") == Some(Str(r.actor.sessionId))
  {
    PayloadWho(r, m);
  }

  lemma IssuedRoles(r: Request, m: Moments) returns (roles: seq<string>)
    requires Payload(r, m).Some?
    ensures GetIn(Payload(r, m).value, "actor", "roles") == Some(Strings(roles))
    ensures Ascending(roles) && Elements(roles) == Elements(r.actor.roles)
  {
    PayloadWho(r, m);
    roles := NormalizeValues(r.actor.roles, MAX_ROLES).value;
  }

  lemma IssuedPermissions(r: Request, m: Moments) returns (permissions: seq<string>)
    requires Payload(r, m).Some?
    ensures Get(Payload(r, m).value, "permissions") == Some(Strings(permissions))
    ensures Ascending(permissions) && Elements(permissions) == Elements(r.permissions)
  {
    PayloadWho(r, m);
    permissions := NormalizeValues(r.permissions, MAX_PERMISSIONS).value;
  }

  lemma IssuedHeader(r: Request, m: Moments)
    requires Payload(r, m).Some?
    ensures var p := Payload(r, m).value;
            && Get(p, "issuer") == Some(Str("growthos-platform-gateway"))
            && Get(p, "audience") == Some(Str("growthos-backlinks-core"))
            && Get(p, "version") == Some(Str("PlatformRequestContext.v1"))
            && Get(p, "correlationId") == Some(Str(r.correlationId))
            && Get(p, "issuedAt") == Some(Str(m.issuedAt)) && Get(p, "expiresAt") == Some(Str(m.expiresAt))
  {
    PayloadWhen(r, m);
  }

  /** Nothing else is sent. */
  lemma IssuedNames(r: Request, m: Moments)
    requires Payload(r, m).Some?
    ensures var p := Payload(r, m).value;
            && p.Dict?
            && p.entries.Keys == {"actor", "audience", "correlationId", "expiresAt", "issuedAt", "issuer",
                                  "permissions", "project", "tenant", "version"}
  {
  }

  predicate IsSent(s: string) {
    s != "" && Strip(s) == s && |s| <= 200
  }

  /** The headers are issued exactly when the key has 32 bytes, the lifetime is 1 to 60 seconds, the
      moments have a time zone, and every value is accepted. */
  lemma IssuedIff(lib: Libraries, key: seq<Byte>, r: Request, now: int, ttl: int, stamp: int -> Option<string>)
    ensures Issue(lib, key, r, now, ttl, stamp).Some? <==>
            && |key| >= 32 && 1 <= ttl <= 60 && stamp(now).Some? && stamp(now + ttl * 1_000_000).Some?
            && NormalizeValues(r.permissions, 128).Some? && NormalizeValues(r.actor.roles, 32).Some?
            && (forall p | p in r.permissions :: IsPermission(p))
            && IsSent(r.actor.userId) && IsSent(r.actor.sessionId) && IsSent(r.correlationId)
            && IsSent(r.tenant.organizationId) && IsSent(r.tenant.workspaceId)
            && (r.project.Some? ==>
                  IsSent(r.project.value.websiteProjectId) && IsSent(r.project.value.websiteProjectKey))
  {
    forall s: string ensures IsSent(s) <==> IsShortIdentifier(s) { IdentifierIsStripped(s); }
    var permissions := NormalizeValues(r.permissions, 128);
    if permissions.Some? {
      assert forall p :: p in permissions.value <==> p in Elements(permissions.value);
      assert forall p :: p in r.permissions <==> p in Elements(r.permissions);
    }
  }

  lemma EncodedDecodes(lib: Libraries, v: Value)
    requires Lawful(lib)
    ensures Decode(Encode(lib.dumps(v))) == Some(lib.dumps(v))
  {
    DecodeAcceptsExactlyEncodings(Encode(lib.dumps(v)), lib.dumps(v));
  }

  /** The two headers carry the payload and its signature. */
  lemma IssuedHeaders(lib: Libraries, key: seq<Byte>, r: Request, now: int, ttl: int, stamp: int -> Option<string>)
    requires Lawful(lib) && Issue(lib, key, r, now, ttl, stamp).Some?
    ensures stamp(now).Some? && stamp(now + ttl * 1_000_000).Some?
    ensures var h := Issue(lib, key, r, now, ttl, stamp).value;
            var payload := Payload(r, Moments(stamp(now).value, stamp(now + ttl * 1_000_000).value));
            && payload.Some? && Decode(h.context) == Some(lib.dumps(payload.value))
            && h.signature == "v1=" + Encode(lib.hmac(key, "PlatformRequestContext.v1." + h.context))
  {
    EncodedDecodes(lib, Payload(r, Moments(stamp(now).value, stamp(now + ttl * 1_000_000).value)).value);
    assert VERSION + "." == "PlatformRequestContext.v1.";
  }
}
