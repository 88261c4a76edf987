/** The capture process: `begin_capture` and `Capture.finish` on a directory where any
    operation may fail. */
module SpoolCapture {
  import opened Options
  import opened SpoolFiles
  import P = SpoolProtocol

  /** Which operation from now on raises, and how much of a text it wrote before. */
  datatype Fault = Never | At(step: nat, written: nat)

  /** The effect of running operations one after the other until one raises; the second
      component says whether all of them succeeded. */
  function RunUntilFault(posix: bool, fs: Fs, ops: seq<Op>, fault: Fault): (Fs, bool)
    decreases ops
  {
    if ops == [] then (fs, true)
    else if !Succeeds(fs, ops[0]) then (fs, false)
    else if fault.At? && fault.step == 0 then (PartOf(posix, fs, ops[0], fault.written), false)
    else RunUntilFault(posix, Apply(posix, fs, ops[0]), ops[1..], Sooner(fault))
  }

  function Sooner(fault: Fault): Fault {
    if fault.At? && fault.step > 0 then At(fault.step - 1, fault.written) else fault
  }

  /** A failing write may leave the beginning of its text; any other failure leaves nothing. */
  function PartOf(posix: bool, fs: Fs, op: Op, written: nat): Fs
    requires Succeeds(fs, op)
  {
    if op.WriteText? && written <= |op.text|
    then Apply(posix, fs, WriteText(op.name, op.text[..written]))
    else fs
  }

  lemma {:induction false} RunSplits(posix: bool, fs: Fs, first: seq<Op>, second: seq<Op>, fault: Fault)
    ensures var (mid, ok) := RunUntilFault(posix, fs, first, fault);
            RunUntilFault(posix, fs, first + second, fault) ==
            if ok then RunUntilFault(posix, mid, second, Later(fault, |first|)) else (mid, false)
    decreases first
  {
    if first == [] {
      assert first + second == second;
    } else {
      assert (first + second)[1..] == first[1..] + second;
      if Succeeds(fs, first[0]) && !(fault.At? && fault.step == 0) {
        RunSplits(posix, Apply(posix, fs, first[0]), first[1..], second, Sooner(fault));
      }
    }
  }

  /** The fault as seen after `n` operations went well. */
  function Later(fault: Fault, n: nat): Fault
    decreases n
  {
    if n == 0 then fault else Later(Sooner(fault), n - 1)
  }

  // ----- Guards --------------------------------------------------------------------

  datatype Settings = Settings(
    enabled: string, spoolAbsolute: bool, deploymentId: string, maxBytes: int, maxPending: int)

  datatype Refusal =
    | InvalidEnabled | UnsupportedRequest | AbsoluteSpoolRequired | DeploymentRequired
    | InvalidNumber | SpoolCapacity

  datatype Outcome = Off | Refused(why: Refusal) | Raised | Started

  predicate IsAlphanumeric(c: char) {
    'a' <= c <= 'z' || 'A' <= c <= 'Z' || '0' <= c <= '9'
  }

  predicate IsAccountPage(endpoint: string) {
    "/v3/appendix/" <= endpoint
  }

  predicate IsSupported(endpoint: string, verb: string) {
    && "/v3/" < endpoint
    && (forall i | 4 <= i < |endpoint| :: IsAlphanumeric(endpoint[i]) || endpoint[i] in "/_-")
    && verb in {"GET", "POST"}
  }

  predicate IsDeployment(id: string) {
    && 1 <= |id| <= 100 && IsAlphanumeric(id[0])
    && forall i | 1 <= i < |id| :: IsAlphanumeric(id[i]) || id[i] in "._-"
  }

  predicate IsArchived(settings: Settings, endpoint: string) {
    settings.enabled == "true" && !IsAccountPage(endpoint)
  }

  /** What must hold, short of room in the spool, for a request to be captured. */
  predicate IsCapturable(settings: Settings, endpoint: string, verb: string) {
    && IsArchived(settings, endpoint) && IsSupported(endpoint, verb)
    && settings.spoolAbsolute && IsDeployment(settings.deploymentId)
    && settings.maxBytes > 0 && settings.maxPending > 0
  }

  // ----- The process ---------------------------------------------------------------

  class Directory {
    const posix: bool
    var fs: Fs
    var fault: Fault

    constructor (posix: bool, fs: Fs, fault: Fault)
      ensures this.posix == posix && this.fs == fs && this.fault == fault
    {
      this.posix, this.fs, this.fault := posix, fs, fault;
    }

    method Perform(op: Op) returns (ok: bool)
      modifies this
      ensures (fs, ok) == RunUntilFault(posix, old(fs), [op], old(fault))
      ensures ok ==> fault == Later(old(fault), 1)
    {
      ok := false;
      if Succeeds(fs, op) {
        if fault.At? && fault.step == 0 {
          fs := PartOf(posix, fs, op, fault.written);
        } else {
          fs, fault, ok := Apply(posix, fs, op), Sooner(fault), true;
          assert [op][1..] == [];
        }
      }
    }

    /** `_write`: create the file, which must not exist, write it and force it to disk. */
    method Write(name: Name, text: string) returns (ok: bool)
      modifies this
      ensures (fs, ok) ==
              RunUntilFault(posix, old(fs), [Create(name), WriteText(name, text), SyncFile(name)], old(fault))
      ensures ok ==> fault == Later(old(fault), 3)
    {
      ghost var fs0, fault0 := fs, fault;
      RunSplits(posix, fs0, [Create(name)], [WriteText(name, text), SyncFile(name)], fault0);
      assert [Create(name)] + [WriteText(name, text), SyncFile(name)] ==
             [Create(name), WriteText(name, text), SyncFile(name)];
      ok := Perform(Create(name));
      if ok {
        RunSplits(posix, fs, [WriteText(name, text)], [SyncFile(name)], fault);
        assert [WriteText(name, text)] + [SyncFile(name)] == [WriteText(name, text), SyncFile(name)];
        ok := Perform(WriteText(name, text));
        if ok {
          ok := Perform(SyncFile(name));
        }
      }
    }

    method BeginCapture(settings: Settings, endpoint: string, verb: string, id: Id, base: string)
      returns (outcome: Outcome)
      modifies this
      ensures outcome == Off || outcome.Refused? ==> fs == old(fs)
      ensures outcome == Refused(InvalidEnabled) <==> settings.enabled !in {"true", "false"}
      ensures outcome == Refused(UnsupportedRequest) <==> IsArchived(settings, endpoint) && !IsSupported(endpoint, verb)
      ensures outcome == Refused(AbsoluteSpoolRequired) <==>
              IsArchived(settings, endpoint) && IsSupported(endpoint, verb) && !settings.spoolAbsolute
      ensures outcome == Refused(DeploymentRequired) <==>
              && IsArchived(settings, endpoint) && IsSupported(endpoint, verb) && settings.spoolAbsolute
              && !IsDeployment(settings.deploymentId)
      ensures outcome == Refused(InvalidNumber) <==>
              && IsArchived(settings, endpoint) && IsSupported(endpoint, verb) && settings.spoolAbsolute
              && IsDeployment(settings.deploymentId) && (settings.maxBytes <= 0 || settings.maxPending <= 0)
      ensures outcome == Off <==> settings.enabled == "false" || (settings.enabled == "true" && IsAccountPage(endpoint))
      ensures outcome in {Raised, Started, Refused(SpoolCapacity)} <==> IsCapturable(settings, endpoint, verb)
      ensures outcome == Refused(SpoolCapacity) <==>
              IsCapturable(settings, endpoint, verb) && |Counted(old(fs))| >= settings.maxPending
      ensures outcome in {Raised, Started} ==>
              (fs, outcome.Started?) == RunUntilFault(posix, old(fs), BeginProgram(id, base), old(fault))
    {
      if settings.enabled == "false" { return Off; }
      if settings.enabled != "true" { return Refused(InvalidEnabled); }
      if IsAccountPage(endpoint) { return Off; }
      if !IsSupported(endpoint, verb) { return Refused(UnsupportedRequest); }
      if !settings.spoolAbsolute { return Refused(AbsoluteSpoolRequired); }
      if !IsDeployment(settings.deploymentId) { return Refused(DeploymentRequired); }
      if settings.maxBytes <= 0 || settings.maxPending <= 0 { return Refused(InvalidNumber); }
      if |Counted(fs)| >= settings.maxPending { return Refused(SpoolCapacity); }
      var p := Name(id, Pending);
      RunSplits(posix, fs, [Create(p), WriteText(p, base), SyncFile(p)], [SyncDirectory], fault);
      assert [Create(p), WriteText(p, base), SyncFile(p)] + [SyncDirectory] == BeginProgram(id, base);
      var ok := Write(p, base);
      if ok { ok := Perform(SyncDirectory); }
      outcome := if ok then Started else Raised;
    }

    /** Never raises: a failure is logged (`gap`) and leaves the marker for the uploader's
        status report. */
    method Finish(id: Id, bodyLength: nat, maxBytes: int, event: string) returns (gap: bool)
      modifies this
      ensures bodyLength > maxBytes ==> gap && fs == old(fs)
      ensures bodyLength <= maxBytes ==>
              (fs, !gap) == RunUntilFault(posix, old(fs), FinishProgram(id, event), old(fault))
    {
      if bodyLength > maxBytes { return true; }
      var w, e, p := Name(id, Writing), Name(id, Event), Name(id, Pending);
      ghost var head := [Create(w), WriteText(w, event), SyncFile(w)];
      RunSplits(posix, fs, head, [Replace(w, e), SyncDirectory, Unlink(p)], fault);
      assert head + [Replace(w, e), SyncDirectory, Unlink(p)] == FinishProgram(id, event);
      var ok := Write(w, event);
      if ok {
        RunSplits(posix, fs, [Replace(w, e)], [SyncDirectory, Unlink(p)], fault);
        assert [Replace(w, e)] + [SyncDirectory, Unlink(p)] == [Replace(w, e), SyncDirectory, Unlink(p)];
        ok := Perform(Replace(w, e));
        if ok {
          RunSplits(posix, fs, [SyncDirectory], [Unlink(p)], fault);
          assert [SyncDirectory] + [Unlink(p)] == [SyncDirectory, Unlink(p)];
          ok := Perform(SyncDirectory);
          if ok { ok := Perform(Unlink(p)); }
        }
      }
      gap := !ok;
    }
  }

  // ----- What a call leaves behind -------------------------------------------------

  /** The fault, if any, comes after the first `n` operations. */
  predicate Spares(fault: Fault, n: nat) {
    fault.At? ==> fault.step >= n
  }

  lemma {:induction false} LaterFault(fault: Fault, n: nat)
    requires Spares(fault, n)
    ensures Later(fault, n) == if fault.At? then At(fault.step - n, fault.written) else Never
    decreases n
  {
    if n > 0 { LaterFault(Sooner(fault), n - 1); }
  }

  lemma RunsFirst(posix: bool, fs: Fs, op: Op, rest: seq<Op>, fault: Fault)
    requires Succeeds(fs, op)
    ensures RunUntilFault(posix, fs, [op] + rest, fault) ==
            if Spares(fault, 1) then RunUntilFault(posix, Apply(posix, fs, op), rest, Sooner(fault))
            else (PartOf(posix, fs, op, fault.written), false)
  {
    assert ([op] + rest)[1..] == rest;
  }

  /** `_write` of a new name: there as soon as it is created, whole and on disk when the call
      returns. */
  lemma WriteOutcome(posix: bool, fs: Fs, n: Name, text: string, fault: Fault)
    requires n !in fs.entries
    ensures var (r, ok) := RunUntilFault(posix, fs, [Create(n), WriteText(n, text), SyncFile(n)], fault);
            && (ok <==> Spares(fault, 3))
            && (n in r.entries <==> Spares(fault, 1))
            && (ok ==> r.files == fs.files + [File(text, true)] && r.entries[n] == |fs.files|)
            && (forall m | m != n :: Entry(r, m) == Entry(fs, m))
            && fs.files <= r.files
  {
    var x, y, z := Create(n), WriteText(n, text), SyncFile(n);
    assert [x, y, z] == [x] + [y, z] && [y, z] == [y] + [z] && [z] == [z] + [];
    RunsFirst(posix, fs, x, [y, z], fault);
    if Spares(fault, 1) {
      var created := Apply(posix, fs, x);
      RunsFirst(posix, created, y, [z], Sooner(fault));
      if Spares(fault, 2) {
        RunsFirst(posix, Apply(posix, created, y), z, [], Sooner(Sooner(fault)));
      }
    }
  }

  /** `begin_capture` on a fresh id: a marker as soon as the file is created, whole when the call
      returns, and nothing else touched. */
  lemma BeginOutcome(posix: bool, fs: Fs, id: Id, base: string, fault: Fault)
    requires Name(id, Pending) !in fs.entries
    ensures var (r, ok) := RunUntilFault(posix, fs, BeginProgram(id, base), fault);
            var p := Name(id, Pending);
            && (ok <==> Spares(fault, 4))
            && (p in r.entries <==> Spares(fault, 1))
            && (ok ==> r.files == fs.files + [File(base, true)] && r.entries[p] == |fs.files|)
            && (forall n | n != p :: Entry(r, n) == Entry(fs, n))
            && fs.files <= r.files
  {
    var p := Name(id, Pending);
    var head := [Create(p), WriteText(p, base), SyncFile(p)];
    assert BeginProgram(id, base) == head + [SyncDirectory] && [SyncDirectory] == [SyncDirectory] + [];
    RunSplits(posix, fs, head, [SyncDirectory], fault);
    WriteOutcome(posix, fs, p, base, fault);
    if Spares(fault, 3) {
      LaterFault(fault, 3);
      RunsFirst(posix, RunUntilFault(posix, fs, head, fault).0, SyncDirectory, [], Later(fault, 3));
    }
  }

  /** The end of `finish`: rename, directory sync, unlink. */
  lemma RenameOutcome(posix: bool, fs: Fs, id: Id, fault: Fault)
    requires Name(id, Pending) in fs.entries && Name(id, Writing) in fs.entries
    ensures var p, w, e := Name(id, Pending), Name(id, Writing), Name(id, Event);
            var (r, ok) := RunUntilFault(posix, fs, [Replace(w, e), SyncDirectory, Unlink(p)], fault);
            && (ok <==> Spares(fault, 3))
            && (Entry(r, e) == if Spares(fault, 1) then Entry(fs, w) else Entry(fs, e))
            && (Entry(r, w) == if Spares(fault, 1) then None else Entry(fs, w))
            && (Entry(r, p) == if Spares(fault, 3) then None else Entry(fs, p))
            && (forall n | n !in {p, w, e} :: Entry(r, n) == Entry(fs, n))
            && r.files == fs.files
  {
    var p, w, e := Name(id, Pending), Name(id, Writing), Name(id, Event);
    var x, y, z := Replace(w, e), SyncDirectory, Unlink(p);
    assert [x, y, z] == [x] + [y, z] && [y, z] == [y] + [z] && [z] == [z] + [];
    RunsFirst(posix, fs, x, [y, z], fault);
    if Spares(fault, 1) {
      var renamed := Apply(posix, fs, x);
      RunsFirst(posix, renamed, y, [z], Sooner(fault));
      if Spares(fault, 2) {
        RunsFirst(posix, Apply(posix, renamed, y), z, [], Sooner(Sooner(fault)));
      }
    }
  }

  /** `finish` on a begun capture: the event is in place, whole, once the rename is done, and the
      marker goes only when everything succeeded, so a gap keeps it. */
  lemma FinishOutcome(posix: bool, fs: Fs, id: Id, event: string, fault: Fault)
    requires Name(id, Pending) in fs.entries
    requires Name(id, Writing) !in fs.entries && Name(id, Event) !in fs.entries
    ensures var (r, ok) := RunUntilFault(posix, fs, FinishProgram(id, event), fault);
            var p, w, e := Name(id, Pending), Name(id, Writing), Name(id, Event);
            && (ok <==> Spares(fault, 6))
            && (e in r.entries <==> Spares(fault, 4))
            && (e in r.entries ==> r.files == fs.files + [File(event, true)] && r.entries[e] == |fs.files|)
            && (Entry(r, p) == if ok then None else Entry(fs, p))
            && (w in r.entries <==> Spares(fault, 1) && !Spares(fault, 4))
            && (forall n | n !in {p, w, e} :: Entry(r, n) == Entry(fs, n))
            && fs.files <= r.files
  {
    var p, w, e := Name(id, Pending), Name(id, Writing), Name(id, Event);
    var head := [Create(w), WriteText(w, event), SyncFile(w)];
    var tail := [Replace(w, e), SyncDirectory, Unlink(p)];
    assert FinishProgram(id, event) == head + tail;
    RunSplits(posix, fs, head, tail, fault);
    WriteOutcome(posix, fs, w, event, fault);
    assert Entry(RunUntilFault(posix, fs, head, fault).0, p) == Entry(fs, p);
    assert Entry(RunUntilFault(posix, fs, head, fault).0, e) == Entry(fs, e);
    if Spares(fault, 3) {
      LaterFault(fault, 3);
      RenameOutcome(posix, RunUntilFault(posix, fs, head, fault).0, id, Later(fault, 3));
    }
  }

  // ----- The methods are runs of the protocol --------------------------------------

  /** Whatever operation fails, what a call does to the directory is what some run of the
      protocol does: the capture's next operations, then, on a failure, its end. */
  lemma {:induction false} CallIsARun(c: P.Config, run: seq<P.Action>, s: P.State, x: Id, fault: Fault)
      returns (longer: seq<P.Action>, t: P.State)
    requires P.Reached(c, run) == Some(s) && P.HasNext(s, x)
    requires |P.Program(s, x)| == if s.captures[x].Beginning? then 4 else 6
    ensures P.Reached(c, longer) == Some(t)
    ensures var (fs, ok) := RunUntilFault(c.posix, s.fs, P.Program(s, x)[P.Pc(s.captures[x])..], fault);
            && t.fs == fs
            && (x in t.captures <==> ok && s.captures[x].Beginning?)
            && (x in t.captures ==> t.captures[x] == P.Open && x in t.begun)
    decreases |P.Program(s, x)| - P.Pc(s.captures[x])
  {
    var ops := P.Program(s, x)[P.Pc(s.captures[x])..];
    if !Succeeds(s.fs, ops[0]) {
      longer, t := P.Then(c, run, s, P.Stop(x));
    } else if fault.At? && fault.step == 0 {
      longer, t := FailureIsARun(c, run, s, x, fault.written);
    } else {
      longer, t := P.Then(c, run, s, P.Step(x));
      if |ops| == 1 {
        assert ops[1..] == [];
      } else {
        assert ops[1..] == P.Program(t, x)[P.Pc(t.captures[x])..];
        longer, t := CallIsARun(c, longer, t, x, Sooner(fault));
      }
    }
  }

  lemma FailureIsARun(c: P.Config, run: seq<P.Action>, s: P.State, x: Id, written: nat)
      returns (longer: seq<P.Action>, t: P.State)
    requires P.Reached(c, run) == Some(s) && P.HasNext(s, x) && Succeeds(s.fs, P.Next(s, x))
    ensures P.Reached(c, longer) == Some(t)
    ensures t.fs == PartOf(c.posix, s.fs, P.Next(s, x), written) && x !in t.captures
  {
    longer, t := run, s;
    if P.Next(s, x).WriteText? && written <= |P.Next(s, x).text| {
      longer, t := P.Then(c, longer, t, P.WritePart(x, written));
    }
    longer, t := P.Then(c, longer, t, P.Stop(x));
  }

  // ----- Which requests are captured -----------------------------------------------

  const LOWER := "abcdefghijklmnopqrstuvwxyz"
  const UPPER := "ABCDEFGHIJKLMNOPQRSTUVWXYZ"

  lemma LowerLetters(c: char)
    ensures 'a' <= c <= 'z' <==> c in LOWER
  {
  }

  lemma UpperLetters(c: char)
    ensures 'A' <= c <= 'Z' <==> c in UPPER
  {
  }

  predicate IsLetterOrDigit(c: char) {
    c in LOWER || c in UPPER || c in "0123456789"
  }

  lemma AlphanumericLetters(c: char)
    ensures IsAlphanumeric(c) <==> IsLetterOrDigit(c)
  {
    LowerLetters(c);
    UpperLetters(c);
  }

  /** `GET` and `POST` requests to a path under `/v3/` of letters, digits, slashes, underscores and
      hyphens. */
  lemma SupportedRequests(endpoint: string, verb: string)
    ensures IsSupported(endpoint, verb) <==>
            && (verb == "GET" || verb == "POST") && "/v3/" <= endpoint && |endpoint| > 4
            && forall c | c in endpoint[4..] :: IsLetterOrDigit(c) || c in "/_-"
  {
    forall c { AlphanumericLetters(c); }
    if "/v3/" <= endpoint {
      assert forall i | 4 <= i < |endpoint| :: endpoint[i] == endpoint[4..][i - 4];
    }
  }

  /** Pages of the account are the paths under `/v3/appendix/`. */
  lemma AccountPages(endpoint: string)
    ensures IsAccountPage(endpoint) <==> exists page :: endpoint == "/v3/appendix/" + page
  {
    if IsAccountPage(endpoint) {
      assert endpoint == "/v3/appendix/" + endpoint[|"/v3/appendix/"|..];
    }
  }

  /** A deployment id has 1 to 100 characters, the first a letter or digit, the others letters,
      digits, dots, underscores or hyphens. */
  lemma DeploymentIds(id: string)
    ensures IsDeployment(id) <==>
            && 1 <= |id| <= 100 && IsLetterOrDigit(id[0])
            && forall c | c in id[1..] :: IsLetterOrDigit(c) || c in "._-"
  {
    forall c { AlphanumericLetters(c); }
    if id != "" {
      assert forall i | 1 <= i < |id| :: id[i] == id[1..][i - 1];
    }
  }
}
