/** The signed ticket that carries a resolved request context through the Gmail OAuth
    redirect. */
module CallbackTicket {
  import opened Options
  import opened Base64Url
  import opened PythonText
  import opened SignedJson

  datatype Context = Context(
    actor: Actor, tenant: Tenant, project: Project, permissions: seq<string>,
    correlationId: string, authenticationExpiresAt: Option<int>)

  // ----- Field readers -------------------------------------------------------------

  predicate IsNameList(names: seq<string>) {
    && names != [] && (forall n | n in names :: n != "")
    && forall i, j | 0 <= i < j < |names| :: names[i] != names[j]
  }

  function TicketMapping(v: Value, name: string): Option<Value> {
    if Get(v, name).Some? && Get(v, name).value.Dict? then Get(v, name) else None
  }

  function TicketString(v: Value, name: string): Option<string> {
    if Get(v, name).Some? && Get(v, name).value.Str? && IsIdentifier(Get(v, name).value.s)
    then Some(Get(v, name).value.s) else None
  }

  function Texts(items: seq<Value>): (texts: seq<string>)
    requires forall x | x in items :: x.Str?
    ensures |texts| == |items| && forall i | 0 <= i < |items| :: items[i] == Str(texts[i])
  {
    if items == [] then [] else [items[0].s] + Texts(items[1..])
  }

  function TicketStrings(v: Value, name: string): Option<seq<string>> {
    if Get(v, name).Some? && Get(v, name).value.List? && (forall x | x in Get(v, name).value.items :: x.Str?)
       && IsNameList(Texts(Get(v, name).value.items))
    then Some(Texts(Get(v, name).value.items)) else None
  }

  function TicketInteger(v: Value, name: string): Option<int> {
    if Get(v, name).Some? && Get(v, name).value.Int? then Some(Get(v, name).value.i) else None
  }

  // ----- Issue ---------------------------------------------------------------------

  const VERSION := "GmailOAuthCallbackTicket.v1"
  const TTL_SECONDS := 600
  const SKEW_SECONDS := 5
  const MICROS := 1_000_000

  /** `int(moment.timestamp())` of a moment in microseconds: truncation toward zero. */
  function Seconds(micros: int): int {
    if micros >= 0 then micros / MICROS else -(-micros / MICROS)
  }

  predicate IsAscii(s: string) {
    forall c | c in s :: c as int < 128
  }

  function Payload(lib: Libraries, c: Context, state: string, now: int): Value {
    Dict(map[
      "actor" := Dict(map["roles" := Strings(c.actor.roles), "sessionId" := Str(c.actor.sessionId),
                          "userId" := Str(c.actor.userId)]),
      "expiresAt" := Int(Seconds(now + TTL_SECONDS * MICROS)),
      "issuedAt" := Int(Seconds(now)),
      "permissions" := Strings(c.permissions),
      "project" := Dict(map["websiteProjectId" := Str(c.project.websiteProjectId),
                            "websiteProjectKey" := Str(c.project.websiteProjectKey)]),
      "stateHash" := Str(lib.sha256(state)),
      "tenant" := Dict(map["organizationId" := Str(c.tenant.organizationId),
                           "workspaceId" := Str(c.tenant.workspaceId)]),
      "version" := Str(VERSION)])
  }

  function Signature(lib: Libraries, key: seq<Byte>, encoded: string): seq<Byte> {
    lib.hmac(key, VERSION + "." + encoded)
  }

  function Issue(lib: Libraries, key: Option<seq<Byte>>, c: Context, state: string, now: int): Option<string> {
    if key.None? || !IsAscii(state) then None
    else
      var encoded := Encode(lib.dumps(Payload(lib, c, state, now)));
      Some(encoded + "." + Encode(Signature(lib, key.value, encoded)))
  }

  // ----- Resolve -------------------------------------------------------------------

  /** `ticket.split(".", 1)`. */
  function SplitAtDot(ticket: string): Option<(string, string)> {
    if ticket == "" then None
    else if ticket[0] == '.' then Some(("", ticket[1..]))
    else
      var rest := SplitAtDot(ticket[1..]);
      if rest.None? then None else Some(([ticket[0]] + rest.value.0, rest.value.1))
  }

  /** The payload of a ticket whose signature is right. */
  function Opened(lib: Libraries, key: Option<seq<Byte>>, ticket: string): Option<Value> {
    var parts := SplitAtDot(ticket);
    if parts.None? || key.None? || !IsAscii(parts.value.0) then None
    else
      var supplied := Decode(parts.value.1);
      if supplied.None? || supplied.value != Signature(lib, key.value, parts.value.0) then None
      else
        var bytes := Decode(parts.value.0);
        if bytes.None? then None else lib.loads(bytes.value)
  }

  predicate Current(payload: Value, now: int) {
    var issued, expires := TicketInteger(payload, "issuedAt"), TicketInteger(payload, "expiresAt");
    && issued.Some? && expires.Some?
    && issued.value <= Seconds(now) + SKEW_SECONDS
    && expires.value > Seconds(now)
    && expires.value - issued.value == TTL_SECONDS
  }

  function ReadContext(payload: Value, correlationId: string): Option<Context> {
    var actor := TicketMapping(payload, "actor");
    var tenant := TicketMapping(payload, "tenant");
    var project := TicketMapping(payload, "project");
    if actor.None? || tenant.None? || project.None? then None
    else
      var userId, sessionId := TicketString(actor.value, "userId"), TicketString(actor.value, "sessionId");
      var roles := TicketStrings(actor.value, "roles");
      var organizationId := TicketString(tenant.value, "organizationId");
      var workspaceId := TicketString(tenant.value, "workspaceId");
      var projectId := TicketString(project.value, "websiteProjectId");
      var projectKey := TicketString(project.value, "websiteProjectKey");
      var permissions := TicketStrings(payload, "permissions");
      if userId.Some? && sessionId.Some? && roles.Some? && organizationId.Some? && workspaceId.Some?
         && projectId.Some? && projectKey.Some? && permissions.Some?
      then Some(Context(Actor(userId.value, sessionId.value, roles.value),
                        Tenant(organizationId.value, workspaceId.value),
                        Project(projectId.value, projectKey.value),
                        permissions.value, correlationId, None))
      else None
  }

  function Resolve(lib: Libraries, key: Option<seq<Byte>>, ticket: string, state: string,
                   correlationId: string, now: int): Option<Context>
  {
    var payload := Opened(lib, key, ticket);
    if payload.None? || !Current(payload.value, now) then None
    else if Get(payload.value, "version") != Some(Str(VERSION)) then None
    else if !IsAscii(state) || TicketString(payload.value, "stateHash") != Some(lib.sha256(state)) then None
    else ReadContext(payload.value, correlationId)
  }

  // ----- What resolving an issued ticket gives -------------------------------------

  predicate IsWellFormed(c: Context) {
    && IsIdentifier(c.actor.userId) && IsIdentifier(c.actor.sessionId) && IsNameList(c.actor.roles)
    && IsIdentifier(c.tenant.organizationId) && IsIdentifier(c.tenant.workspaceId)
    && IsIdentifier(c.project.websiteProjectId) && IsIdentifier(c.project.websiteProjectKey)
    && IsNameList(c.permissions)
  }

  lemma {:induction false} SplitIsAtFirstDot(ticket: string)
    ensures SplitAtDot(ticket).Some? ==>
              && '.' !in SplitAtDot(ticket).value.0
              && ticket == SplitAtDot(ticket).value.0 + "." + SplitAtDot(ticket).value.1
  {
    if ticket != "" && ticket[0] != '.' { SplitIsAtFirstDot(ticket[1..]); }
  }

  lemma {:induction false} SplitFindsDot(head: string, tail: string)
    requires '.' !in head
    ensures SplitAtDot(head + "." + tail) == Some((head, tail))
  {
    var s := head + "." + tail;
    if head == "" {
      assert s == "." + tail;
    } else {
      assert s[0] == head[0] && s[1..] == head[1..] + "." + tail;
      SplitFindsDot(head[1..], tail);
      assert [head[0]] + head[1..] == head;
    }
  }

  lemma LettersAreAscii(s: string)
    requires InAlphabet(s)
    ensures '.' !in s && IsAscii(s)
  {
    forall c | c in s ensures c != '.' && c as int < 128 {
      var i :| 0 <= i < |s| && s[i] == c;
      assert Base64Url.Value(s[i]).Some?;
    }
  }

  lemma SignedTextOpens(lib: Libraries, key: seq<Byte>, payload: Value)
    requires Lawful(lib)
    ensures var encoded := Encode(lib.dumps(payload));
            Opened(lib, Some(key), encoded + "." + Encode(Signature(lib, key, encoded))) == Some(payload)
  {
    var bytes := lib.dumps(payload);
    var encoded := Encode(bytes);
    var signature := Signature(lib, key, encoded);
    EncodingIsCanonical(bytes);
    LettersAreAscii(encoded);
    SplitFindsDot(encoded, Encode(signature));
    DecodeAcceptsExactlyEncodings(encoded, bytes);
    DecodeAcceptsExactlyEncodings(Encode(signature), signature);
  }

  /** An issued ticket opens to the payload that was signed, with the key that signed it. */
  lemma IssuedTicketOpens(lib: Libraries, key: Option<seq<Byte>>, c: Context, state: string, now: int)
    requires Lawful(lib) && Issue(lib, key, c, state, now).Some?
    ensures Opened(lib, key, Issue(lib, key, c, state, now).value) == Some(Payload(lib, c, state, now))
  {
    SignedTextOpens(lib, key.value, Payload(lib, c, state, now));
  }

  lemma StringsReadBack(v: Value, name: string, texts: seq<string>)
    requires Get(v, name) == Some(Strings(texts))
    ensures TicketStrings(v, name) == if IsNameList(texts) then Some(texts) else None
  {
    var items := Strings(texts).items;
    assert forall x | x in items :: x.Str?;
    assert Texts(items) == texts;
  }

  /** How the nested parts of an issued payload read. */
  lemma PartsReadBack(lib: Libraries, c: Context, state: string, now: int)
    ensures var p := Payload(lib, c, state, now);
            && TicketMapping(p, "actor").Some? && TicketMapping(p, "tenant").Some? && TicketMapping(p, "project").Some?
            && Get(TicketMapping(p, "actor").value, "roles") == Some(Strings(c.actor.roles))
            && Get(TicketMapping(p, "actor").value, "sessionId") == Some(Str(c.actor.sessionId))
            && Get(TicketMapping(p, "actor").value, "userId") == Some(Str(c.actor.userId))
            && Get(TicketMapping(p, "tenant").value, "organizationId") == Some(Str(c.tenant.organizationId))
            && Get(TicketMapping(p, "tenant").value, "workspaceId") == Some(Str(c.tenant.workspaceId))
            && Get(TicketMapping(p, "project").value, "websiteProjectId") == Some(Str(c.project.websiteProjectId))
            && Get(TicketMapping(p, "project").value, "websiteProjectKey") == Some(Str(c.project.websiteProjectKey))
            && Get(p, "permissions") == Some(Strings(c.permissions))
  {
  }

  lemma PayloadReadsBack(lib: Libraries, c: Context, state: string, now: int, correlationId: string)
    ensures ReadContext(Payload(lib, c, state, now), correlationId) ==
            if IsWellFormed(c)
            then Some(c.(correlationId := correlationId, authenticationExpiresAt := None))
            else None
  {
    PartsReadBack(lib, c, state, now);
    PartsMakeContext(Payload(lib, c, state, now), c, correlationId);
  }

  lemma PartsMakeContext(p: Value, c: Context, correlationId: string)
    requires TicketMapping(p, "actor").Some? && TicketMapping(p, "tenant").Some? && TicketMapping(p, "project").Some?
    requires Get(TicketMapping(p, "actor").value, "roles") == Some(Strings(c.actor.roles))
    requires Get(TicketMapping(p, "actor").value, "sessionId") == Some(Str(c.actor.sessionId))
    requires Get(TicketMapping(p, "actor").value, "userId") == Some(Str(c.actor.userId))
    requires Get(TicketMapping(p, "tenant").value, "organizationId") == Some(Str(c.tenant.organizationId))
    requires Get(TicketMapping(p, "tenant").value, "workspaceId") == Some(Str(c.tenant.workspaceId))
    requires Get(TicketMapping(p, "project").value, "websiteProjectId") == Some(Str(c.project.websiteProjectId))
    requires Get(TicketMapping(p, "project").value, "websiteProjectKey") == Some(Str(c.project.websiteProjectKey))
    requires Get(p, "permissions") == Some(Strings(c.permissions))
    ensures ReadContext(p, correlationId) ==
            if IsWellFormed(c)
            then Some(c.(correlationId := correlationId, authenticationExpiresAt := None))
            else None
  {
    StringsReadBack(p, "permissions", c.permissions);
    StringsReadBack(TicketMapping(p, "actor").value, "roles", c.actor.roles);
  }

  lemma PayloadHeader(lib: Libraries, c: Context, state: string, issuedAt: int, now: int)
    requires Lawful(lib)
    ensures Current(Payload(lib, c, state, issuedAt), now) <==>
            && Seconds(issuedAt) - SKEW_SECONDS <= Seconds(now) < Seconds(issuedAt) + TTL_SECONDS
            && WholeLifetime(issuedAt)
    ensures Get(Payload(lib, c, state, issuedAt), "version") == Some(Str(VERSION))
    ensures TicketString(Payload(lib, c, state, issuedAt), "stateHash") == Some(lib.sha256(state))
  {
    DigestIsIdentifier(lib, state);
    LifetimeIsWhole(issuedAt);
    var p := Payload(lib, c, state, issuedAt);
    assert TicketInteger(p, "issuedAt") == Some(Seconds(issuedAt));
    assert TicketInteger(p, "expiresAt") == Some(Seconds(issuedAt + TTL_SECONDS * MICROS));
  }

  lemma DigestIsIdentifier(lib: Libraries, state: string)
    requires Lawful(lib)
    ensures IsIdentifier(lib.sha256(state))
  {
    var d := lib.sha256(state);
    assert d[0] in d && d[|d| - 1] in d;
  }

  /** Whether, and as what, an issued ticket is accepted, for every context, state and time.
      The state is bound by its digest; the times are in whole seconds. */
  lemma IssuedTicketResolves(
    lib: Libraries, key: Option<seq<Byte>>, c: Context, state: string, issuedAt: int,
    laterState: string, correlationId: string, now: int)
    requires Lawful(lib) && Issue(lib, key, c, state, issuedAt).Some?
    ensures Resolve(lib, key, Issue(lib, key, c, state, issuedAt).value, laterState, correlationId, now) ==
            if && IsWellFormed(c)
               && IsAscii(laterState) && lib.sha256(laterState) == lib.sha256(state)
               && Seconds(issuedAt) - 5 <= Seconds(now) < Seconds(issuedAt) + 600
               && WholeLifetime(issuedAt)
            then Some(c.(correlationId := correlationId, authenticationExpiresAt := None))
            else None
  {
    IssuedTicketOpens(lib, key, c, state, issuedAt);
    PayloadReadsBack(lib, c, state, issuedAt, correlationId);
    PayloadHeader(lib, c, state, issuedAt, now);
  }

  /** The issue time does not fall, with a fraction, in the ten minutes before 1970, where
      truncation toward zero would shorten the ticket's life. */
  predicate WholeLifetime(issuedAt: int) {
    !(-TTL_SECONDS * MICROS < issuedAt < 0) || issuedAt % MICROS == 0
  }

  lemma LifetimeIsWhole(issuedAt: int)
    ensures Seconds(issuedAt + TTL_SECONDS * MICROS) - Seconds(issuedAt) == TTL_SECONDS
            <==> WholeLifetime(issuedAt)
  {
  }

  // ----- What an accepted ticket is ------------------------------------------------

  /** An accepted ticket is exactly the canonical text of its payload and of the one signature
      that the key makes for it, so no other spelling of the same ticket is accepted. */
  lemma AcceptedTicketIsCanonical(
    lib: Libraries, key: Option<seq<Byte>>, ticket: string, state: string, correlationId: string, now: int)
    requires Resolve(lib, key, ticket, state, correlationId, now).Some?
    ensures key.Some?
    ensures exists bytes: seq<Byte> ::
              && bytes != []
              && ticket == Encode(bytes) + "." + Encode(Signature(lib, key.value, Encode(bytes)))
              && lib.loads(bytes) == Opened(lib, key, ticket)
  {
    SplitIsAtFirstDot(ticket);
    var (encoded, supplied) := SplitAtDot(ticket).value;
    var bytes := Decode(encoded).value;
    DecodeAcceptsExactlyEncodings(encoded, bytes);
    DecodeAcceptsExactlyEncodings(supplied, Decode(supplied).value);
  }

  // ----- The ticket, field by field ------------------------------------------------

  /** `int(timestamp())` drops the fraction of the second toward 1970. */
  lemma SecondsDropFraction(micros: int)
    ensures micros >= 0 ==> 0 <= micros - Seconds(micros) * 1_000_000 < 1_000_000
    ensures micros < 0 ==> -1_000_000 < micros - Seconds(micros) * 1_000_000 <= 0
  {
  }

  /** A ticket is issued exactly when there is a key and the state is ASCII: the encoded payload, a
      dot, and the encoded signature of version and payload. */
  lemma IssuedIff(lib: Libraries, key: Option<seq<Byte>>, c: Context, state: string, now: int)
    ensures Issue(lib, key, c, state, now).Some? <==> key.Some? && forall ch | ch in state :: ch < '\U{80}'
    ensures Issue(lib, key, c, state, now).Some? ==>
              var encoded := Encode(lib.dumps(Payload(lib, c, state, now)));
              Issue(lib, key, c, state, now).value ==
              encoded + "." + Encode(lib.hmac(key.value, "GmailOAuthCallbackTicket.v1." + encoded))
  {
    assert VERSION + "." == "GmailOAuthCallbackTicket.v1.";
  }

  lemma IssuedWho(lib: Libraries, c: Context, state: string, now: int)
    ensures var p := Payload(lib, c, state, now);
            && GetIn(p, "actor", "userId") == Some(Str(c.actor.userId))
            && GetIn(p, "actor", "sessionId") == Some(Str(c.actor.sessionId))
            && GetIn(p, "actor", "roles") == Some(Strings(c.actor.roles))
            && Get(p, "permissions") == Some(Strings(c.permissions))
  {
    PartsReadBack(lib, c, state, now);
  }

  lemma IssuedWhere(lib: Libraries, c: Context, state: string, now: int)
    ensures var p := Payload(lib, c, state, now);
            && GetIn(p, "tenant", "organizationId") == Some(Str(c.tenant.organizationId))
            && GetIn(p, "tenant", "workspaceId") == Some(Str(c.tenant.workspaceId))
            && GetIn(p, "project", "websiteProjectId") == Some(Str(c.project.websiteProjectId))
            && GetIn(p, "project", "websiteProjectKey") == Some(Str(c.project.websiteProjectKey))
  {
    PartsReadBack(lib, c, state, now);
  }

  lemma IssuedWhen(lib: Libraries, c: Context, state: string, now: int)
    ensures var p := Payload(lib, c, state, now);
            && Get(p, "version") == Some(Str("GmailOAuthCallbackTicket.v1"))
            && Get(p, "stateHash") == Some(Str(lib.sha256(state)))
            && Get(p, "issuedAt") == Some(Int(Seconds(now)))
            && Get(p, "expiresAt") == Some(Int(Seconds(now + 600_000_000)))
  {
  }

  /** Nothing else is in the ticket. */
  lemma IssuedNames(lib: Libraries, c: Context, state: string, now: int)
    ensures var p := Payload(lib, c, state, now);
            && p.Dict?
            && p.entries.Keys == {"actor", "expiresAt", "issuedAt", "permissions", "project", "stateHash",
                                  "tenant", "version"}
  {
  }

  // ----- Field readers -------------------------------------------------------------

  lemma ReaderOfStrings(v: Value, name: string, texts: seq<string>)
    ensures TicketStrings(v, name) == Some(texts) <==>
            && Get(v, name) == Some(Strings(texts)) && texts != []
            && (forall t | t in texts :: t != "")
            && forall i, j | 0 <= i < j < |texts| :: texts[i] != texts[j]
  {
    if Get(v, name) == Some(Strings(texts)) {
      StringsReadBack(v, name, texts);
    }
    if TicketStrings(v, name) == Some(texts) {
      assert Strings(texts).items == Get(v, name).value.items;
    }
  }

  lemma ReaderOfString(v: Value, name: string, text: string)
    ensures TicketString(v, name) == Some(text) <==>
            Get(v, name) == Some(Str(text)) && text != "" && Strip(text) == text
  {
    IdentifierIsStripped(text);
  }

  // ----- Every accepted ticket -----------------------------------------------------

  /** What was checked of a ticket that is accepted, whoever made it: the version, the digest of the
      state, and in whole seconds a life of 600 that began at most 5 ahead and is not over. */
  lemma AcceptedIsChecked(lib: Libraries, key: Option<seq<Byte>>, ticket: string, state: string,
                          correlationId: string, now: int)
    requires Resolve(lib, key, ticket, state, correlationId, now).Some?
    ensures Opened(lib, key, ticket).Some?
    ensures var p := Opened(lib, key, ticket).value;
            && Get(p, "version") == Some(Str("GmailOAuthCallbackTicket.v1"))
            && Get(p, "stateHash") == Some(Str(lib.sha256(state))) && (forall ch | ch in state :: ch < '\U{80}')
            && exists issued, expires ::
                 && Get(p, "issuedAt") == Some(Int(issued)) && Get(p, "expiresAt") == Some(Int(expires))
                 && issued <= Seconds(now) + 5 && Seconds(now) < expires && expires == issued + 600
  {
    var p := Opened(lib, key, ticket).value;
    var issued, expires := TicketInteger(p, "issuedAt").value, TicketInteger(p, "expiresAt").value;
    assert Get(p, "issuedAt") == Some(Int(issued)) && Get(p, "expiresAt") == Some(Int(expires));
  }

  /** And where each part of the accepted context comes from. */
  lemma AcceptedComesFromTicket(lib: Libraries, key: Option<seq<Byte>>, ticket: string, state: string,
                                correlationId: string, now: int)
    requires Resolve(lib, key, ticket, state, correlationId, now).Some?
    ensures var p := Opened(lib, key, ticket).value;
            var c := Resolve(lib, key, ticket, state, correlationId, now).value;
            && GetIn(p, "actor", "userId") == Some(Str(c.actor.userId))
            && GetIn(p, "actor", "sessionId") == Some(Str(c.actor.sessionId))
            && GetIn(p, "actor", "roles") == Some(Strings(c.actor.roles))
            && GetIn(p, "tenant", "organizationId") == Some(Str(c.tenant.organizationId))
            && GetIn(p, "tenant", "workspaceId") == Some(Str(c.tenant.workspaceId))
            && GetIn(p, "project", "websiteProjectId") == Some(Str(c.project.websiteProjectId))
            && GetIn(p, "project", "websiteProjectKey") == Some(Str(c.project.websiteProjectKey))
            && Get(p, "permissions") == Some(Strings(c.permissions))
            && c.correlationId == correlationId && IsWellFormed(c)
  {
    ContextComesFromPayload(Opened(lib, key, ticket).value, correlationId);
  }

  lemma ContextComesFromPayload(p: Value, correlationId: string)
    requires ReadContext(p, correlationId).Some?
    ensures var c := ReadContext(p, correlationId).value;
            && GetIn(p, "actor", "userId") == Some(Str(c.actor.userId))
            && GetIn(p, "actor", "sessionId") == Some(Str(c.actor.sessionId))
            && GetIn(p, "actor", "roles") == Some(Strings(c.actor.roles))
            && GetIn(p, "tenant", "organizationId") == Some(Str(c.tenant.organizationId))
            && GetIn(p, "tenant", "workspaceId") == Some(Str(c.tenant.workspaceId))
            && GetIn(p, "project", "websiteProjectId") == Some(Str(c.project.websiteProjectId))
            && GetIn(p, "project", "websiteProjectKey") == Some(Str(c.project.websiteProjectKey))
            && Get(p, "permissions") == Some(Strings(c.permissions))
            && c.correlationId == correlationId && IsWellFormed(c)
  {
    var c := ReadContext(p, correlationId).value;
    var actor := TicketMapping(p, "actor").value;
    ReaderOfStrings(actor, "roles", c.actor.roles);
    ReaderOfStrings(p, "permissions", c.permissions);
  }
}
