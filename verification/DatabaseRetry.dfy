/** Which database errors may be retried, and the bounded retry loop. */
module DatabaseRetry {
  import opened Options

  type ErrorId = nat

  /** An attribute of an exception: missing or of another type, a string, or an integer. */
  datatype Attribute = Absent | Text(text: string) | Number(number: int)

  datatype Error = Error(
    orig: Option<ErrorId>, cause: Option<ErrorId>, context: Option<ErrorId>,
    sqlstate: Attribute, pgcode: Attribute, code: Attribute, errno: Attribute,
    invalidated: bool)

  /** The exceptions alive when an operation failed, with their links, which may be cyclic. */
  type Errors = map<ErrorId, Error>

  function Links(e: Error): seq<ErrorId> {
    (if e.orig.Some? then [e.orig.value] else [])
    + (if e.cause.Some? then [e.cause.value] else [])
    + (if e.context.Some? then [e.context.value] else [])
  }

  predicate Closed(g: Errors) {
    forall x | x in g :: forall y | y in Links(g[x]) :: y in g
  }

  predicate IsPath(g: Errors, path: seq<ErrorId>) {
    && path != [] && (forall x | x in path :: x in g)
    && forall i | 0 <= i < |path| - 1 :: IsLinked(g, path, i)
  }

  predicate IsLinked(g: Errors, path: seq<ErrorId>, i: nat)
    requires i < |path| - 1 && forall x | x in path :: x in g
  {
    path[i + 1] in Links(g[path[i]])
  }

  predicate Leads(g: Errors, path: seq<ErrorId>, root: ErrorId, x: ErrorId) {
    IsPath(g, path) && path[0] == root && path[|path| - 1] == x
  }

  ghost predicate Reachable(g: Errors, root: ErrorId, x: ErrorId) {
    exists path :: Leads(g, path, root, x)
  }

  lemma PathExtends(g: Errors, path: seq<ErrorId>, y: ErrorId)
    requires IsPath(g, path) && y in Links(g[path[|path| - 1]]) && y in g
    ensures IsPath(g, path + [y]) && (path + [y])[0] == path[0]
  {
    var longer := path + [y];
    forall x | x in longer ensures x in g {
      assert x in path || x == y;
    }
    forall i | 0 <= i < |longer| - 1 ensures IsLinked(g, longer, i) {
      assert longer[i] == path[i];
      assert i + 1 < |path| ==> IsLinked(g, path, i) && longer[i + 1] == path[i + 1];
    }
  }

  lemma ReachLink(g: Errors, root: ErrorId, x: ErrorId, y: ErrorId)
    requires Reachable(g, root, x) && y in Links(g[x]) && y in g
    ensures Reachable(g, root, y)
  {
    var path :| Leads(g, path, root, x);
    PathExtends(g, path, y);
    assert Leads(g, path + [y], root, y);
  }

  lemma {:induction false} ClosedSetHoldsPath(g: Errors, path: seq<ErrorId>, closed: set<ErrorId>)
    requires IsPath(g, path) && path[0] in closed
    requires forall x, y | x in closed && x in g && y in Links(g[x]) :: y in closed
    ensures path[|path| - 1] in closed
    decreases path
  {
    if |path| > 1 {
      var rest := path[1..];
      assert IsLinked(g, path, 0);
      forall i | 0 <= i < |rest| - 1 ensures IsLinked(g, rest, i) {
        assert IsLinked(g, path, i + 1);
      }
      ClosedSetHoldsPath(g, rest, closed);
    }
  }

  predicate NoRepeats(chain: seq<ErrorId>) {
    forall i, j | 0 <= i < j < |chain| :: chain[i] != chain[j]
  }

  /** Every error that is reachable from the root, once, with the root first. */
  method ErrorChain(g: Errors, root: ErrorId) returns (chain: seq<ErrorId>)
    requires Closed(g) && root in g
    ensures chain != [] && chain[0] == root
    ensures forall i, j | 0 <= i < j < |chain| :: chain[i] != chain[j]
    ensures forall x :: x in chain <==> Reachable(g, root, x)
  {
    chain := [];
    var pending := [root];
    var seen: set<ErrorId> := {};
    assert Reachable(g, root, root) by {
      assert Leads(g, [root], root, root);
    }
    while pending != []
      invariant chain == [] ==> pending == [root]
      invariant chain != [] ==> chain[0] == root
      invariant NoRepeats(chain)
      invariant forall x :: x in chain <==> x in seen
      invariant forall x | x in pending || x in seen :: x in g && Reachable(g, root, x)
      invariant forall x, y | x in seen && x in g && y in Links(g[x]) :: y in seen || y in pending
      invariant root in seen || root in pending
      decreases g.Keys - seen, |pending|
    {
      ghost var stack := pending;
      var current := pending[|pending| - 1];
      pending := pending[..|pending| - 1];
      assert forall x | x in stack :: x == current || x in pending;
      if current in seen {
        continue;
      }
      seen := seen + {current};
      chain := chain + [current];
      forall y | y in Links(g[current]) ensures y in g && Reachable(g, root, y) {
        ReachLink(g, root, current, y);
      }
      pending := pending + Links(g[current]);
    }
    forall x | Reachable(g, root, x) ensures x in chain {
      var path :| Leads(g, path, root, x);
      ClosedSetHoldsPath(g, path, seen);
    }
  }

  // ----- Codes ---------------------------------------------------------------------

  const TRANSIENT_CODES: set<string> := {
    "CONNECTION_CLOSED", "CONNECTION_ENDED", "CONNECTION_DESTROYED", "CONNECT_TIMEOUT",
    "ECONNRESET", "ECONNREFUSED", "EPIPE", "ETIMEDOUT", "57P01", "57P02", "57P03"
  }

  const PRE_EXECUTION_CODES: set<string> := {
    "CONNECT_TIMEOUT", "ECONNREFUSED", "08001", "08004", "57P03"
  }

  const ECONNRESET := 104
  const ECONNREFUSED := 111
  const EPIPE := 32
  const ETIMEDOUT := 110

  const TRANSIENT_ERRNOS: set<int> := {ECONNRESET, ECONNREFUSED, EPIPE, ETIMEDOUT}
  const PRE_EXECUTION_ERRNOS: set<int> := {ECONNREFUSED}

  function Upper(s: string): string {
    seq(|s|, i requires 0 <= i < |s| =>
      if 'a' <= s[i] <= 'z' then (s[i] as int - 'a' as int + 'A' as int) as char else s[i])
  }

  function TextCode(a: Attribute): set<string> {
    if a.Text? && a.text != "" then {Upper(a.text)} else {}
  }

  function TextCodes(e: Error): set<string> {
    TextCode(e.sqlstate) + TextCode(e.pgcode) + TextCode(e.code) + TextCode(e.errno)
  }

  function NumberCodes(e: Error): set<int> {
    if e.errno.Number? then {e.errno.number} else {}
  }

  /** The codes of the first `n` errors of a chain. */
  function ChainTexts(g: Errors, chain: seq<ErrorId>, n: nat): set<string>
    requires n <= |chain| && forall x | x in chain :: x in g
  {
    if n == 0 then {} else ChainTexts(g, chain, n - 1) + TextCodes(g[chain[n - 1]])
  }

  function ChainNumbers(g: Errors, chain: seq<ErrorId>, n: nat): set<int>
    requires n <= |chain| && forall x | x in chain :: x in g
  {
    if n == 0 then {} else ChainNumbers(g, chain, n - 1) + NumberCodes(g[chain[n - 1]])
  }

  lemma {:induction false} ChainTextsMember(g: Errors, chain: seq<ErrorId>, n: nat, t: string)
    requires n <= |chain| && forall x | x in chain :: x in g
    ensures t in ChainTexts(g, chain, n) <==> exists j | 0 <= j < n :: t in TextCodes(g[chain[j]])
  {
    if n > 0 { ChainTextsMember(g, chain, n - 1, t); }
  }

  lemma {:induction false} ChainNumbersMember(g: Errors, chain: seq<ErrorId>, n: nat, c: int)
    requires n <= |chain| && forall x | x in chain :: x in g
    ensures c in ChainNumbers(g, chain, n) <==> exists j | 0 <= j < n :: c in NumberCodes(g[chain[j]])
  {
    if n > 0 { ChainNumbersMember(g, chain, n - 1, c); }
  }

  /** The codes are those carried by some error reachable from the root. */
  ghost predicate AreCodes(g: Errors, root: ErrorId, texts: set<string>, numbers: set<int>) {
    && (forall t :: t in texts <==> exists x :: Reachable(g, root, x) && x in g && t in TextCodes(g[x]))
    && (forall n :: n in numbers <==> exists x :: Reachable(g, root, x) && x in g && n in NumberCodes(g[x]))
  }

  method ErrorCodes(g: Errors, root: ErrorId) returns (texts: set<string>, numbers: set<int>)
    requires Closed(g) && root in g
    ensures AreCodes(g, root, texts, numbers)
  {
    var chain := ErrorChain(g, root);
    ReachableIsKnown(g, root);
    texts, numbers := {}, {};
    for i := 0 to |chain|
      invariant texts == ChainTexts(g, chain, i)
      invariant numbers == ChainNumbers(g, chain, i)
    {
      var item := g[chain[i]];
      texts := texts + TextCode(item.sqlstate) + TextCode(item.pgcode) + TextCode(item.code);
      if item.errno.Number? {
        numbers := numbers + {item.errno.number};
      } else {
        texts := texts + TextCode(item.errno);
      }
    }
    forall t ensures t in texts <==> exists x :: Reachable(g, root, x) && x in g && t in TextCodes(g[x]) {
      ChainTextsMember(g, chain, |chain|, t);
      assert forall j | 0 <= j < |chain| :: chain[j] in chain;
    }
    forall n ensures n in numbers <==> exists x :: Reachable(g, root, x) && x in g && n in NumberCodes(g[x]) {
      ChainNumbersMember(g, chain, |chain|, n);
      assert forall j | 0 <= j < |chain| :: chain[j] in chain;
    }
  }

  lemma ReachableIsKnown(g: Errors, root: ErrorId)
    ensures forall x | Reachable(g, root, x) :: x in g
  {
    forall x | Reachable(g, root, x) ensures x in g {
      var path :| Leads(g, path, root, x);
      assert path[|path| - 1] in path;
    }
  }

  // ----- Classification ------------------------------------------------------------

  predicate CarriesTransient(e: Error) {
    || (exists t | t in TextCodes(e) :: "08" <= t || t in TRANSIENT_CODES)
    || NumberCodes(e) * TRANSIENT_ERRNOS != {}
  }

  predicate CarriesPreExecution(e: Error) {
    TextCodes(e) * PRE_EXECUTION_CODES != {} || NumberCodes(e) * PRE_EXECUTION_ERRNOS != {}
  }

  /** Some reachable error shows that the statement never reached the database. */
  ghost predicate PreExecution(g: Errors, root: ErrorId) {
    exists x :: x in g && Reachable(g, root, x) && CarriesPreExecution(g[x])
  }

  ghost predicate Transient(g: Errors, root: ErrorId, readOnly: bool) {
    exists x :: x in g && Reachable(g, root, x) &&
                (CarriesTransient(g[x]) || (readOnly && g[x].invalidated))
  }

  lemma PreExecutionIsTransient(e: Error)
    ensures CarriesPreExecution(e) ==> CarriesTransient(e)
  {
    if t :| t in TextCodes(e) && t in PRE_EXECUTION_CODES {
      assert "08" <= t || t in TRANSIENT_CODES;
    }
    if n :| n in NumberCodes(e) && n in PRE_EXECUTION_ERRNOS {
      assert n in NumberCodes(e) * TRANSIENT_ERRNOS;
    }
  }

  /** A write may be retried exactly when some reachable error carries a pre-execution code; a
      read exactly when some reachable error is transient. */
  method IsTransientDatabaseError(g: Errors, root: ErrorId, readOnly: bool) returns (retryable: bool)
    requires Closed(g) && root in g
    ensures !readOnly ==> (retryable <==> PreExecution(g, root))
    ensures readOnly ==> (retryable <==> Transient(g, root, true))
  {
    var texts, numbers := ErrorCodes(g, root);
    var chain := ErrorChain(g, root);
    ReachableIsKnown(g, root);
    var transient :=
      || (exists t | t in texts :: "08" <= t)
      || texts * TRANSIENT_CODES != {}
      || numbers * TRANSIENT_ERRNOS != {}
      || (readOnly && exists i | 0 <= i < |chain| :: g[chain[i]].invalidated);
    TransientByCodes(g, root, readOnly, texts, numbers, chain);
    PreExecutionByCodes(g, root, texts, numbers);
    if PreExecution(g, root) { RetryableWriteIsRetryableRead(g, root, readOnly); }
    if !transient { return false; }
    if readOnly { return true; }
    retryable := texts * PRE_EXECUTION_CODES != {} || numbers * PRE_EXECUTION_ERRNOS != {};
  }

  lemma TransientByCodes(g: Errors, root: ErrorId, readOnly: bool, texts: set<string>, numbers: set<int>,
                         chain: seq<ErrorId>)
    requires AreCodes(g, root, texts, numbers)
    requires forall x :: x in chain <==> Reachable(g, root, x)
    requires forall x | x in chain :: x in g
    ensures Transient(g, root, readOnly) <==>
            || (exists t | t in texts :: "08" <= t)
            || texts * TRANSIENT_CODES != {}
            || numbers * TRANSIENT_ERRNOS != {}
            || (readOnly && exists i | 0 <= i < |chain| :: g[chain[i]].invalidated)
  {
    if Transient(g, root, readOnly) {
      var x :| x in g && Reachable(g, root, x) &&
               (CarriesTransient(g[x]) || (readOnly && g[x].invalidated));
      if t :| t in TextCodes(g[x]) && ("08" <= t || t in TRANSIENT_CODES) {
        assert t in texts;
        assert t in TRANSIENT_CODES ==> t in texts * TRANSIENT_CODES;
      } else if n :| n in NumberCodes(g[x]) * TRANSIENT_ERRNOS {
        assert n in numbers * TRANSIENT_ERRNOS;
      } else {
        assert x in chain;
      }
    }
    if t :| t in texts && ("08" <= t || t in TRANSIENT_CODES) {
      var x :| Reachable(g, root, x) && x in g && t in TextCodes(g[x]);
      assert CarriesTransient(g[x]);
    }
    if n :| n in numbers && n in TRANSIENT_ERRNOS {
      var x :| Reachable(g, root, x) && x in g && n in NumberCodes(g[x]);
      assert n in NumberCodes(g[x]) * TRANSIENT_ERRNOS;
    }
    if i :| readOnly && 0 <= i < |chain| && g[chain[i]].invalidated {
      assert chain[i] in chain;
    }
  }

  lemma PreExecutionByCodes(g: Errors, root: ErrorId, texts: set<string>, numbers: set<int>)
    requires AreCodes(g, root, texts, numbers)
    ensures PreExecution(g, root) <==> texts * PRE_EXECUTION_CODES != {} || numbers * PRE_EXECUTION_ERRNOS != {}
  {
    if PreExecution(g, root) {
      var x :| x in g && Reachable(g, root, x) && CarriesPreExecution(g[x]);
      if t :| t in TextCodes(g[x]) * PRE_EXECUTION_CODES {
        assert t in texts * PRE_EXECUTION_CODES;
      } else {
        var n :| n in NumberCodes(g[x]) * PRE_EXECUTION_ERRNOS;
        assert n in numbers * PRE_EXECUTION_ERRNOS;
      }
    }
    if t :| t in texts * PRE_EXECUTION_CODES {
      var x :| Reachable(g, root, x) && x in g && t in TextCodes(g[x]);
      assert t in TextCodes(g[x]) * PRE_EXECUTION_CODES;
    }
    if n :| n in numbers * PRE_EXECUTION_ERRNOS {
      var x :| Reachable(g, root, x) && x in g && n in NumberCodes(g[x]);
      assert n in NumberCodes(g[x]) * PRE_EXECUTION_ERRNOS;
    }
  }

  /** What may be retried as a write may be retried as a read. */
  lemma RetryableWriteIsRetryableRead(g: Errors, root: ErrorId, readOnly: bool)
    requires PreExecution(g, root)
    ensures Transient(g, root, readOnly)
  {
    var x :| x in g && Reachable(g, root, x) && CarriesPreExecution(g[x]);
    PreExecutionIsTransient(g[x]);
  }

  // ----- The loop ------------------------------------------------------------------

  /** What one call of the operation does. A cancellation is not an `Exception`. */
  datatype Outcome<T> =
    | Returned(result: T)
    | Failed(g: Errors, root: ErrorId, tookEffect: bool)
    | Cancelled(cancelEffect: bool)

  const RETRIES := 3

  predicate WellFormed<T>(o: Outcome<T>) {
    o.Failed? ==> Closed(o.g) && o.root in o.g
  }

  ghost predicate Retryable<T>(o: Outcome<T>, readOnly: bool) {
    o.Failed? && if readOnly then Transient(o.g, o.root, true) else PreExecution(o.g, o.root)
  }

  predicate TookEffect<T>(o: Outcome<T>) {
    match o
    case Returned(_) => true
    case Failed(_, _, effect) => effect
    case Cancelled(effect) => effect
  }

  /** How many of the first `n` calls took effect. */
  function Effects<T>(operation: nat -> Outcome<T>, n: nat): nat {
    if n == 0 then 0 else Effects(operation, n - 1) + (if TookEffect(operation(n - 1)) then 1 else 0)
  }

  /** What may be retried as a write did nothing. */
  ghost predicate RetryableHasNoEffect<T>(operation: nat -> Outcome<T>) {
    forall i {:trigger Retryable(operation(i), false)} :: Retryable(operation(i), false) ==> !TookEffect(operation(i))
  }

  /** Each of the first `n` calls fails in a way that may be retried. */
  ghost predicate AllRetryable<T>(operation: nat -> Outcome<T>, readOnly: bool, n: nat) {
    forall i {:trigger Retryable(operation(i), readOnly)} | 0 <= i < n :: Retryable(operation(i), readOnly)
  }

  /** Calls that were retried as writes left no effect, so the last one makes one at most. */
  lemma {:induction false} EffectOfRetried<T>(operation: nat -> Outcome<T>, n: nat)
    requires RetryableHasNoEffect(operation) && AllRetryable(operation, false, n)
    ensures Effects(operation, n) == 0 && Effects(operation, n + 1) <= 1
  {
    if n > 0 {
      EffectOfRetried(operation, n - 1);
      assert Retryable(operation(n - 1), false);
    }
  }

  method IsRetryable<T>(outcome: Outcome<T>, readOnly: bool) returns (retryable: bool)
    requires WellFormed(outcome)
    ensures retryable <==> Retryable(outcome, readOnly)
  {
    retryable := false;
    if outcome.Failed? {
      retryable := IsTransientDatabaseError(outcome.g, outcome.root, readOnly);
    }
  }

  /** `operation(i)` is what the i-th call does. The loop hands on the outcome of its last call;
      `None` stands for the error after the loop. It stops at the first outcome that is not a
      retryable failure, and after four calls at the latest. */
  method RetryDatabaseOperation<T>(operation: nat -> Outcome<T>, readOnly: bool)
    returns (last: Option<Outcome<T>>, calls: nat)
    requires forall i {:trigger WellFormed(operation(i))} :: WellFormed(operation(i))
    ensures 1 <= calls <= 4
    ensures last == Some(operation(calls - 1))
    ensures AllRetryable(operation, readOnly, calls - 1)
    ensures calls < 4 ==> !Retryable(operation(calls - 1), readOnly)
    ensures !readOnly && RetryableHasNoEffect(operation) ==> Effects(operation, calls) <= 1
  {
    last, calls := None, 0;
    while calls <= RETRIES
      invariant calls <= RETRIES
      invariant AllRetryable(operation, readOnly, calls)
    {
      var attempt := calls;
      var outcome := operation(attempt);
      assert WellFormed(operation(attempt));
      calls := calls + 1;
      var retryable := IsRetryable(outcome, readOnly);
      if retryable && attempt < RETRIES {
        continue;
      }
      last := Some(outcome);
      break;
    }
    if !readOnly && RetryableHasNoEffect(operation) { EffectOfRetried(operation, calls - 1); }
  }

  // ----- What is reachable, link by link -------------------------------------------

  /** With an error, its original, its cause and its context are reachable. */
  lemma ReachableIsClosed(g: Errors, root: ErrorId, x: ErrorId)
    requires Closed(g) && root in g && Reachable(g, root, x)
    ensures Reachable(g, root, root) && x in g
    ensures g[x].orig.Some? ==> Reachable(g, root, g[x].orig.value)
    ensures g[x].cause.Some? ==> Reachable(g, root, g[x].cause.value)
    ensures g[x].context.Some? ==> Reachable(g, root, g[x].context.value)
  {
    assert Leads(g, [root], root, root);
    ReachableIsKnown(g, root);
    forall y | y in Links(g[x]) ensures Reachable(g, root, y) { ReachLink(g, root, x, y); }
  }

  /** And nothing is that some set closed under these three links leaves out. */
  lemma ReachableIsLeast(g: Errors, root: ErrorId, closed: set<ErrorId>, x: ErrorId)
    requires root in closed && Reachable(g, root, x)
    requires forall y | y in closed && y in g ::
               && (g[y].orig.Some? ==> g[y].orig.value in closed)
               && (g[y].cause.Some? ==> g[y].cause.value in closed)
               && (g[y].context.Some? ==> g[y].context.value in closed)
    ensures x in closed
  {
    var path :| Leads(g, path, root, x);
    ClosedSetHoldsPath(g, path, closed);
  }

  // ----- Which codes count ---------------------------------------------------------

  /** The text but for the case of letters. */
  predicate SameInUpper(s: string, upper: string) {
    && |s| == |upper|
    && forall i | 0 <= i < |s| ::
         if 'a' <= s[i] <= 'z' then upper[i] as int == s[i] as int - 32 else upper[i] == s[i]
  }

  /** An attribute of the error holds this text in some case, and it is not empty. */
  predicate Holds(e: Error, code: string) {
    code != "" && exists a | a in {e.sqlstate, e.pgcode, e.code, e.errno} :: a.Text? && SameInUpper(a.text, code)
  }

  lemma HeldCodes(e: Error, code: string)
    ensures code in TextCodes(e) <==> Holds(e, code)
  {
    forall a: Attribute ensures code in TextCode(a) <==> code != "" && a.Text? && SameInUpper(a.text, code) {
      HeldCode(a, code);
    }
    assert TextCode(e.sqlstate) <= TextCodes(e) && TextCode(e.pgcode) <= TextCodes(e);
    assert TextCode(e.code) <= TextCodes(e) && TextCode(e.errno) <= TextCodes(e);
  }

  lemma HeldCode(a: Attribute, code: string)
    ensures code in TextCode(a) <==> code != "" && a.Text? && SameInUpper(a.text, code)
  {
    if a.Text? {
      if SameInUpper(a.text, code) {
        assert forall i | 0 <= i < |code| :: Upper(a.text)[i] == code[i];
        assert Upper(a.text) == code;
      } else if |a.text| == |code| {
        var i :| 0 <= i < |code| && !(if 'a' <= a.text[i] <= 'z' then code[i] as int == a.text[i] as int - 32
                                      else code[i] == a.text[i]);
        assert Upper(a.text)[i] != code[i];
      }
    }
  }

  /** The errors that show that a statement was never executed. */
  lemma PreExecutionCodes(e: Error)
    ensures CarriesPreExecution(e) <==>
            || Holds(e, "CONNECT_TIMEOUT") || Holds(e, "ECONNREFUSED") || Holds(e, "08001") || Holds(e, "08004")
            || Holds(e, "57P03") || e.errno == Number(111)
  {
    forall code { HeldCodes(e, code); }
    assert NumberCodes(e) * PRE_EXECUTION_ERRNOS != {} <==> e.errno == Number(111) by {
      assert 111 in NumberCodes(e) <==> e.errno == Number(111);
      if n :| n in NumberCodes(e) * PRE_EXECUTION_ERRNOS { assert n == 111; }
    }
    if c :| c in TextCodes(e) * PRE_EXECUTION_CODES {
      assert Holds(e, c);
    }
    assert forall c | c in TextCodes(e) && c in PRE_EXECUTION_CODES :: c in TextCodes(e) * PRE_EXECUTION_CODES;
  }

  /** The codes that are transient by name; those of class 08 are so by their beginning. */
  predicate IsTransientName(code: string) {
    || code == "CONNECTION_CLOSED" || code == "CONNECTION_ENDED" || code == "CONNECTION_DESTROYED"
    || code == "CONNECT_TIMEOUT" || code == "ECONNRESET" || code == "ECONNREFUSED" || code == "EPIPE"
    || code == "ETIMEDOUT" || code == "57P01" || code == "57P02" || code == "57P03"
  }

  lemma TransientNames(code: string)
    ensures code in TRANSIENT_CODES <==> IsTransientName(code)
  {
  }

  /** The errors after which a read may be tried again. */
  lemma TransientCodes(e: Error)
    ensures CarriesTransient(e) <==>
            || (exists code :: Holds(e, code) && (IsTransientName(code) || exists rest :: code == "08" + rest))
            || e.errno in {Number(104), Number(111), Number(32), Number(110)}
  {
    TransientNumbers(e);
    if t :| t in TextCodes(e) && ("08" <= t || t in TRANSIENT_CODES) {
      HeldCodes(e, t);
      TransientNames(t);
      assert "08" <= t ==> t == "08" + t[2..];
    }
    if code :| Holds(e, code) && (IsTransientName(code) || exists rest :: code == "08" + rest) {
      HeldCodes(e, code);
      TransientNames(code);
    }
  }

  lemma TransientNumbers(e: Error)
    ensures NumberCodes(e) * TRANSIENT_ERRNOS != {} <==> e.errno in {Number(104), Number(111), Number(32), Number(110)}
  {
    if e.errno.Number? {
      assert e.errno.number in NumberCodes(e);
      assert e.errno.number in TRANSIENT_ERRNOS <==> e.errno.number in NumberCodes(e) * TRANSIENT_ERRNOS;
    }
  }

  /** When a call may be repeated: it failed, and as a write only when some error it led to shows that
      nothing was executed, as a read also when one is transient or the connection was invalidated. */
  lemma RetryableCalls<T>(o: Outcome<T>)
    ensures Retryable(o, false) <==>
            o.Failed? && exists x :: x in o.g && Reachable(o.g, o.root, x) && CarriesPreExecution(o.g[x])
    ensures Retryable(o, true) <==>
            o.Failed? && exists x :: x in o.g && Reachable(o.g, o.root, x)
                                     && (CarriesTransient(o.g[x]) || o.g[x].invalidated)
  {
  }
}
