/** What every run of the spool protocol keeps. */
module SpoolSafety {
  import opened Options
  import opened SpoolFiles
  import opened SpoolProtocol

  // ----- The claims ----------------------------------------------------------------

  ghost predicate Solid(fs: Fs, n: Name) {
    None !in OnDisk(fs, n)
  }

  /** Whatever file the name may have after a power loss is on disk with exactly this text. */
  ghost predicate Holds(fs: Fs, n: Name, text: string) {
    forall i :: Some(i) in OnDisk(fs, n) ==> i < |fs.files| && fs.files[i] == File(text, true)
  }

  /** A capture that began is not lost: power may fail now, and one of its files survives,
      until the uploader has delivered the event. */
  ghost predicate NotLost(s: State, x: Id) {
    x in s.begun && x !in s.delivered ==> Solid(s.fs, Name(x, Pending)) || Solid(s.fs, Name(x, Event))
  }

  /** An event file, if there may be one, is the whole event, and the base record of a capture
      that began is whole. */
  ghost predicate Whole(s: State, x: Id) {
    && (OnDisk(s.fs, Name(x, Event)) != {None} ==>
          x in s.events && Holds(s.fs, Name(x, Event), s.events[x]))
    && (x in s.begun ==> x in s.bases && Holds(s.fs, Name(x, Pending), s.bases[x]))
    && (x in s.delivered ==> x in s.events && s.delivered[x] == s.events[x])
  }

  // ----- The invariant -------------------------------------------------------------

  ghost predicate Clean(fs: Fs, n: Name) {
    OnDisk(fs, n) == {None}
  }

  /** The name was created since the last directory sync that matters, and by nobody else. */
  ghost predicate Fresh(fs: Fs, n: Name) {
    n in fs.entries && forall v :: v in OnDisk(fs, n) ==> v == None || v == Some(fs.entries[n])
  }

  ghost predicate SharesFile(n: Name, m: Name) {
    n == m || (n.id == m.id && n.kind != Pending && m.kind != Pending)
  }

  ghost predicate FsOk(fs: Fs) {
    && (forall n: Name :: Entry(fs, n) in OnDisk(fs, n))
    && (forall n: Name, i :: Some(i) in OnDisk(fs, n) ==> i < |fs.files|)
    && (forall n: Name, m: Name, i ::
          Some(i) in OnDisk(fs, n) && Some(i) in OnDisk(fs, m) ==> SharesFile(n, m))
  }

  ghost predicate BeginningOk(s: State, x: Id, pc: nat) {
    var p := Name(x, Pending);
    && pc < 4 && x in s.bases && x !in s.begun && x !in s.events
    && Clean(s.fs, Name(x, Writing)) && Clean(s.fs, Name(x, Event))
    && (pc == 0 ==> Clean(s.fs, p))
    && (pc >= 1 ==> Fresh(s.fs, p))
    && (pc >= 2 ==> s.fs.entries[p] < |s.fs.files| && s.fs.files[s.fs.entries[p]].content == s.bases[x])
    && (pc == 3 ==> s.fs.files[s.fs.entries[p]].synced)
  }

  ghost predicate OpenOk(c: Config, s: State, x: Id) {
    var p := Name(x, Pending);
    && x in s.begun && x !in s.delivered
    && p in s.fs.entries && (c.posix ==> Solid(s.fs, p))
    && Clean(s.fs, Name(x, Event))
  }

  ghost predicate FinishingOk(c: Config, s: State, x: Id, pc: nat) {
    var p, w, e := Name(x, Pending), Name(x, Writing), Name(x, Event);
    && pc < 6 && x in s.events && x in s.begun
    && (pc <= 3 ==> OpenOk(c, s, x))
    && (pc == 0 ==> Clean(s.fs, w))
    && (1 <= pc <= 3 ==> Fresh(s.fs, w))
    && (2 <= pc <= 3 ==> s.fs.entries[w] < |s.fs.files| && s.fs.files[s.fs.entries[w]].content == s.events[x])
    && (pc == 3 ==> s.fs.files[s.fs.entries[w]].synced)
    && (pc == 4 && x !in s.delivered ==> e in s.fs.entries && (c.posix ==> Solid(s.fs, p)))
    && (pc == 5 && x !in s.delivered ==> e in s.fs.entries && (c.posix ==> Solid(s.fs, e)))
  }

  /** Everything that is kept about one event id. */
  ghost predicate IdOk(c: Config, s: State, x: Id) {
    && Whole(s, x)
    && (c.posix ==> NotLost(s, x))
    && (x in s.begun || x in s.captures || (exists k :: !Clean(s.fs, Name(x, k))) ==> x in s.bases)
    && (x in s.events ==> x in s.begun)
    && (x in s.captures ==>
          match s.captures[x]
          case Beginning(pc) => BeginningOk(s, x, pc)
          case Open => OpenOk(c, s, x) && x !in s.events && Clean(s.fs, Name(x, Writing))
          case Finishing(pc) => FinishingOk(c, s, x, pc))
  }

  ghost predicate Inv(c: Config, s: State) {
    FsOk(s.fs) && forall x :: IdOk(c, s, x)
  }

  // ----- One step ------------------------------------------------------------------

  /** Nothing that is kept about `x` was touched. */
  ghost predicate Untouched(s: State, t: State, x: Id) {
    && (forall k :: OnDisk(t.fs, Name(x, k)) == OnDisk(s.fs, Name(x, k)) &&
                    Entry(t.fs, Name(x, k)) == Entry(s.fs, Name(x, k)))
    && (forall k, i :: Some(i) in OnDisk(s.fs, Name(x, k)) ==>
                         i < |s.fs.files| && i < |t.fs.files| && t.fs.files[i] == s.fs.files[i])
    && (x in t.captures <==> x in s.captures) && (x in s.captures ==> t.captures[x] == s.captures[x])
    && (x in t.bases <==> x in s.bases) && (x in s.bases ==> t.bases[x] == s.bases[x])
    && (x in t.begun <==> x in s.begun)
    && (x in t.events <==> x in s.events) && (x in s.events ==> t.events[x] == s.events[x])
    && (x in t.delivered <==> x in s.delivered) && (x in s.delivered ==> t.delivered[x] == s.delivered[x])
  }

  lemma UntouchedKeepsIdOk(c: Config, s: State, t: State, x: Id)
    requires FsOk(s.fs) && IdOk(c, s, x) && Untouched(s, t, x)
    ensures IdOk(c, t, x)
  {
    forall k | Name(x, k) in s.fs.entries
      ensures Name(x, k) in t.fs.entries && t.fs.entries[Name(x, k)] == s.fs.entries[Name(x, k)]
      ensures Some(s.fs.entries[Name(x, k)]) in OnDisk(s.fs, Name(x, k))
    {
      assert Entry(t.fs, Name(x, k)) == Entry(s.fs, Name(x, k));
      assert Entry(s.fs, Name(x, k)) in OnDisk(s.fs, Name(x, k));
    }
    assert forall k :: Clean(t.fs, Name(x, k)) <==> Clean(s.fs, Name(x, k));
    assert Whole(t, x);
    assert c.posix ==> NotLost(t, x);
  }

  /** How each operation changes what may be on disk. */
  lemma OnDiskAfter(posix: bool, fs: Fs, op: Op, m: Name)
    requires FsOk(fs) && Succeeds(fs, op)
    ensures OnDisk(Apply(posix, fs, op), m) ==
            match op
            case Create(n) => if m == n then OnDisk(fs, m) + {Some(|fs.files|)} else OnDisk(fs, m)
            case WriteText(_, _) => OnDisk(fs, m)
            case SyncFile(_) => OnDisk(fs, m)
            case Replace(source, target) =>
              if m == target then OnDisk(fs, m) + {Some(fs.entries[source])}
              else if m == source then OnDisk(fs, m) + {None}
              else OnDisk(fs, m)
            case SyncDirectory => if posix then {Entry(fs, m)} else OnDisk(fs, m)
            case Unlink(n) => if m == n then OnDisk(fs, m) + {None} else OnDisk(fs, m)
  {
    assert Entry(fs, m) in OnDisk(fs, m);
    if op.Unlink? && op.name !in fs.entries {
      assert Entry(fs, op.name) in OnDisk(fs, op.name);
      assert OnDisk(fs, op.name) + {None} == OnDisk(fs, op.name);
    }
  }

  lemma OpKeepsFsOk(posix: bool, fs: Fs, op: Op)
    requires FsOk(fs) && Succeeds(fs, op)
    requires op.Replace? ==> op.source.id == op.target.id && op.source.kind == Writing && op.target.kind == Event
    ensures FsOk(Apply(posix, fs, op))
  {
    var r := Apply(posix, fs, op);
    forall n: Name ensures Entry(r, n) in OnDisk(r, n) {
      OnDiskAfter(posix, fs, op, n);
      assert Entry(fs, n) in OnDisk(fs, n);
    }
    forall n: Name, i | Some(i) in OnDisk(r, n) ensures i < |r.files| {
      OnDiskAfter(posix, fs, op, n);
      assert Entry(fs, n) in OnDisk(fs, n);
      if op.Replace? { assert Entry(fs, op.source) in OnDisk(fs, op.source); }
    }
    forall n: Name, m: Name, i | Some(i) in OnDisk(r, n) && Some(i) in OnDisk(r, m) ensures SharesFile(n, m) {
      OnDiskAfter(posix, fs, op, n);
      OnDiskAfter(posix, fs, op, m);
      assert Entry(fs, n) in OnDisk(fs, n) && Entry(fs, m) in OnDisk(fs, m);
      if op.Replace? { assert Entry(fs, op.source) in OnDisk(fs, op.source); }
    }
  }

  /** An operation on files of `x` alone leaves every other capture as it was. */
  lemma OthersUntouched(c: Config, s: State, t: State, x: Id)
    requires Inv(c, s)
    requires forall y, k | y != x :: OnDisk(t.fs, Name(y, k)) == OnDisk(s.fs, Name(y, k)) &&
                                     Entry(t.fs, Name(y, k)) == Entry(s.fs, Name(y, k))
    requires |s.fs.files| <= |t.fs.files|
    requires forall y, k, i | y != x && Some(i) in OnDisk(s.fs, Name(y, k)) ::
               i < |s.fs.files| ==> t.fs.files[i] == s.fs.files[i]
    requires t.captures - {x} == s.captures - {x} && t.bases - {x} == s.bases - {x}
    requires t.begun - {x} == s.begun - {x} && t.events - {x} == s.events - {x}
    requires t.delivered - {x} == s.delivered - {x}
    ensures forall y | y != x :: IdOk(c, t, y)
  {
    forall y | y != x ensures IdOk(c, t, y) {
      assert y in t.captures <==> y in t.captures - {x};
      assert y in s.captures <==> y in s.captures - {x};
      assert y in s.captures ==> (t.captures - {x})[y] == (s.captures - {x})[y];
      assert y in t.bases <==> y in t.bases - {x};
      assert y in s.bases <==> y in s.bases - {x};
      assert y in s.bases ==> (t.bases - {x})[y] == (s.bases - {x})[y];
      assert y in t.events <==> y in t.events - {x};
      assert y in s.events <==> y in s.events - {x};
      assert y in s.events ==> (t.events - {x})[y] == (s.events - {x})[y];
      assert y in t.delivered <==> y in t.delivered - {x};
      assert y in s.delivered <==> y in s.delivered - {x};
      assert y in s.delivered ==> (t.delivered - {x})[y] == (s.delivered - {x})[y];
      assert y in t.begun <==> y in t.begun - {x};
      assert y in s.begun <==> y in s.begun - {x};
      assert Untouched(s, t, y);
      UntouchedKeepsIdOk(c, s, t, y);
    }
  }

  lemma KeepsCreate(c: Config, s: State, x: Id)
    requires Inv(c, s) && Enabled(c, s, Step(x)) && Next(s, x).Create?
    ensures Inv(c, After(c, s, Step(x)))
  {
    var t := After(c, s, Step(x));
    OpKeepsFsOk(c.posix, s.fs, Next(s, x));
    OthersUntouched(c, s, t, x);
    assert IdOk(c, s, x);
  }

  /** Writing to a file touches no name but those that share it. */
  lemma OwnFile(fs: Fs, n: Name)
    requires FsOk(fs) && n in fs.entries
    ensures Some(fs.entries[n]) in OnDisk(fs, n)
    ensures forall m: Name, i | Some(i) in OnDisk(fs, m) && !SharesFile(n, m) :: i != fs.entries[n]
  {
    assert Entry(fs, n) in OnDisk(fs, n);
  }

  /** Nor does it touch the claim about such a name. */
  lemma OtherFileHolds(posix: bool, fs: Fs, op: Op, m: Name, text: string)
    requires FsOk(fs) && (op.WriteText? || op.SyncFile?) && Succeeds(fs, op)
    requires !SharesFile(op.name, m) && Holds(fs, m, text)
    ensures Holds(Apply(posix, fs, op), m, text)
  {
    OwnFile(fs, op.name);
  }

  lemma KeepsWriteText(c: Config, s: State, x: Id)
    requires Inv(c, s) && Enabled(c, s, Step(x)) && Next(s, x).WriteText?
    ensures Inv(c, After(c, s, Step(x)))
  {
    assert IdOk(c, s, x);
    var n := Next(s, x).name;
    OwnFile(s.fs, n);
    var t := After(c, s, Step(x));
    OpKeepsFsOk(c.posix, s.fs, Next(s, x));
    if x in s.begun { OtherFileHolds(c.posix, s.fs, Next(s, x), Name(x, Pending), s.bases[x]); }
    OthersUntouched(c, s, t, x);
    assert Whole(t, x);
    assert IdOk(c, t, x);
  }

  lemma KeepsWritePart(c: Config, s: State, x: Id, length: nat)
    requires Inv(c, s) && Enabled(c, s, WritePart(x, length))
    ensures Inv(c, After(c, s, WritePart(x, length)))
  {
    assert IdOk(c, s, x);
    var n := Next(s, x).name;
    OwnFile(s.fs, n);
    var t := After(c, s, WritePart(x, length));
    var op := WriteText(n, Next(s, x).text[..length]);
    OpKeepsFsOk(c.posix, s.fs, op);
    if x in s.begun { OtherFileHolds(c.posix, s.fs, op, Name(x, Pending), s.bases[x]); }
    OthersUntouched(c, s, t, x);
    assert Whole(t, x);
    assert IdOk(c, t, x);
  }

  lemma KeepsSyncFile(c: Config, s: State, x: Id)
    requires Inv(c, s) && Enabled(c, s, Step(x)) && Next(s, x).SyncFile?
    ensures Inv(c, After(c, s, Step(x)))
  {
    assert IdOk(c, s, x);
    var n := Next(s, x).name;
    OwnFile(s.fs, n);
    var t := After(c, s, Step(x));
    OpKeepsFsOk(c.posix, s.fs, Next(s, x));
    if x in s.begun { OtherFileHolds(c.posix, s.fs, Next(s, x), Name(x, Pending), s.bases[x]); }
    OthersUntouched(c, s, t, x);
    assert Whole(t, x);
    assert IdOk(c, t, x);
  }

  lemma KeepsReplace(c: Config, s: State, x: Id)
    requires Inv(c, s) && Enabled(c, s, Step(x)) && Next(s, x).Replace?
    ensures Inv(c, After(c, s, Step(x)))
  {
    assert IdOk(c, s, x);
    var n := Name(x, Writing);
    assert Entry(s.fs, n) in OnDisk(s.fs, n);
    var t := After(c, s, Step(x));
    OpKeepsFsOk(c.posix, s.fs, Next(s, x));
    OthersUntouched(c, s, t, x);
    assert Whole(t, x);
    assert IdOk(c, t, x);
  }

  // A directory sync settles every name on what is there now.
  lemma SyncKeepsIdOk(c: Config, s: State, x: Id)
    requires FsOk(s.fs) && IdOk(c, s, x)
    ensures IdOk(c, s.(fs := Apply(c.posix, s.fs, SyncDirectory)), x)
  {
    var t := s.(fs := Apply(c.posix, s.fs, SyncDirectory));
    forall k ensures OnDisk(t.fs, Name(x, k)) ==
                     if c.posix then {Entry(s.fs, Name(x, k))} else OnDisk(s.fs, Name(x, k))
      ensures Entry(s.fs, Name(x, k)) in OnDisk(s.fs, Name(x, k))
      ensures Clean(s.fs, Name(x, k)) ==> Clean(t.fs, Name(x, k))
    {
      OnDiskAfter(c.posix, s.fs, SyncDirectory, Name(x, k));
      assert Entry(s.fs, Name(x, k)) in OnDisk(s.fs, Name(x, k));
    }
  }

  lemma KeepsUploaderSync(c: Config, s: State)
    requires Inv(c, s)
    ensures Inv(c, After(c, s, UploaderSync))
  {
    OpKeepsFsOk(c.posix, s.fs, SyncDirectory);
    forall x ensures IdOk(c, After(c, s, UploaderSync), x) {
      SyncKeepsIdOk(c, s, x);
    }
  }

  lemma KeepsOwnSync(c: Config, s: State, x: Id)
    requires Inv(c, s) && Enabled(c, s, Step(x)) && Next(s, x).SyncDirectory?
    ensures Inv(c, After(c, s, Step(x)))
  {
    var r := After(c, s, UploaderSync);
    KeepsUploaderSync(c, s);
    var t := After(c, s, Step(x));
    OthersUntouched(c, r, t, x);
    assert IdOk(c, s, x) && IdOk(c, r, x);
    forall k ensures OnDisk(t.fs, Name(x, k)) ==
                     if c.posix then {Entry(s.fs, Name(x, k))} else OnDisk(s.fs, Name(x, k)) {
      OnDiskAfter(c.posix, s.fs, SyncDirectory, Name(x, k));
    }
    assert Entry(s.fs, Name(x, Pending)) in OnDisk(s.fs, Name(x, Pending));
    assert IdOk(c, t, x);
  }

  lemma KeepsOwnUnlink(c: Config, s: State, x: Id)
    requires Inv(c, s) && Enabled(c, s, Step(x)) && Next(s, x).Unlink?
    ensures Inv(c, After(c, s, Step(x)))
  {
    assert IdOk(c, s, x);
    var t := After(c, s, Step(x));
    OpKeepsFsOk(c.posix, s.fs, Next(s, x));
    forall m: Name { OnDiskAfter(c.posix, s.fs, Next(s, x), m); }
    OthersUntouched(c, s, t, x);
    assert Whole(t, x);
    assert IdOk(c, t, x);
  }

  lemma KeepsStep(c: Config, s: State, x: Id)
    requires Inv(c, s) && Enabled(c, s, Step(x))
    ensures Inv(c, After(c, s, Step(x)))
  {
    match Next(s, x)
    case Create(_) => KeepsCreate(c, s, x);
    case WriteText(_, _) => KeepsWriteText(c, s, x);
    case SyncFile(_) => KeepsSyncFile(c, s, x);
    case Replace(_, _) => KeepsReplace(c, s, x);
    case SyncDirectory => KeepsOwnSync(c, s, x);
    case Unlink(_) => KeepsOwnUnlink(c, s, x);
  }

  lemma KeepsCount(c: Config, s: State, a: Action)
    requires Inv(c, s) && Enabled(c, s, a) && a.Count?
    ensures Inv(c, After(c, s, a))
  {
    assert IdOk(c, s, a.id);
    assert forall k :: Clean(s.fs, Name(a.id, k));
    OthersUntouched(c, s, After(c, s, a), a.id);
    assert IdOk(c, After(c, s, a), a.id);
  }

  lemma KeepsCallFinish(c: Config, s: State, a: Action)
    requires Inv(c, s) && Enabled(c, s, a) && a.CallFinish?
    ensures Inv(c, After(c, s, a))
  {
    assert IdOk(c, s, a.id);
    OthersUntouched(c, s, After(c, s, a), a.id);
    assert IdOk(c, After(c, s, a), a.id);
  }

  lemma KeepsStop(c: Config, s: State, a: Action)
    requires Inv(c, s) && Enabled(c, s, a) && a.Stop?
    ensures Inv(c, After(c, s, a))
  {
    assert IdOk(c, s, a.id);
    OthersUntouched(c, s, After(c, s, a), a.id);
    assert IdOk(c, After(c, s, a), a.id);
  }

  lemma KeepsUploader(c: Config, s: State, a: Action)
    requires Inv(c, s) && Enabled(c, s, a) && (a.Deliver? || a.DropPending?)
    ensures Inv(c, After(c, s, a))
  {
    var t := After(c, s, a);
    var n := Name(a.id, if a.Deliver? then Event else Pending);
    assert IdOk(c, s, a.id);
    assert Entry(s.fs, n) in OnDisk(s.fs, n);
    OpKeepsFsOk(c.posix, s.fs, Unlink(n));
    forall m: Name { OnDiskAfter(c.posix, s.fs, Unlink(n), m); }
    OthersUntouched(c, s, t, a.id);
    assert IdOk(c, t, a.id);
  }

  lemma KeepsPowerLoss(c: Config, s: State, a: Action)
    requires Inv(c, s) && Enabled(c, s, a) && a.PowerLoss?
    ensures Inv(c, After(c, s, a))
  {
    var t := After(c, s, a);
    forall m: Name { SettledByPowerLoss(c, s, a, m); }
    assert FsOk(t.fs);
    forall x ensures IdOk(c, t, x) { PowerLossKeepsIdOk(c, s, a, x); }
  }

  /** A power loss settles every name on one of the values it might have had. */
  lemma SettledByPowerLoss(c: Config, s: State, a: Action, m: Name)
    requires Enabled(c, s, a) && a.PowerLoss?
    ensures var fs := After(c, s, a).fs;
            OnDisk(fs, m) == {Entry(fs, m)} && Entry(fs, m) in OnDisk(s.fs, m)
  {
    assert Entry(After(c, s, a).fs, m) in OnDisk(s.fs, m);
  }

  lemma PowerLossKeepsIdOk(c: Config, s: State, a: Action, x: Id)
    requires FsOk(s.fs) && IdOk(c, s, x) && Enabled(c, s, a) && a.PowerLoss?
    ensures IdOk(c, After(c, s, a), x)
  {
    var t := After(c, s, a);
    var p, e := Name(x, Pending), Name(x, Event);
    forall k { PowerLossKeepsName(c, s, a, Name(x, k), ""); }
    PowerLossKeepsName(c, s, a, p, if x in s.bases then s.bases[x] else "");
    PowerLossKeepsName(c, s, a, e, if x in s.events then s.events[x] else "");
    assert Whole(t, x);
    assert c.posix ==> NotLost(t, x);
  }

  lemma PowerLossKeepsName(c: Config, s: State, a: Action, n: Name, text: string)
    requires Enabled(c, s, a) && a.PowerLoss?
    ensures var fs := After(c, s, a).fs;
            && (Clean(s.fs, n) ==> Clean(fs, n)) && (Solid(s.fs, n) ==> Solid(fs, n))
            && (Holds(s.fs, n, text) ==> Holds(fs, n, text))
  {
    SettledByPowerLoss(c, s, a, n);
  }

  lemma KeepsEveryAction(c: Config, s: State, a: Action)
    requires Inv(c, s) && Enabled(c, s, a)
    ensures Inv(c, After(c, s, a))
  {
    match a
    case Step(x) => KeepsStep(c, s, x);
    case WritePart(x, length) => KeepsWritePart(c, s, x, length);
    case UploaderSync => KeepsUploaderSync(c, s);
    case PowerLoss(_, _) => KeepsPowerLoss(c, s, a);
    case Deliver(_) => KeepsUploader(c, s, a);
    case DropPending(_) => KeepsUploader(c, s, a);
    case Count(_, _) => KeepsCount(c, s, a);
    case CallFinish(_, _) => KeepsCallFinish(c, s, a);
    case Stop(_) => KeepsStop(c, s, a);
  }

  lemma {:induction false} EveryRunKeepsInv(c: Config, actions: seq<Action>)
    requires Reached(c, actions).Some?
    ensures Inv(c, Reached(c, actions).value)
    decreases |actions|
  {
    if actions == [] {
      assert forall x :: IdOk(c, EMPTY, x);
    } else {
      var last := |actions| - 1;
      EveryRunKeepsInv(c, actions[..last]);
      KeepsEveryAction(c, Reached(c, actions[..last]).value, actions[last]);
    }
  }

  // ----- Main results --------------------------------------------------------------

  /** At every point of every run, also after any number of power losses: an event file that
      exists, or might exist after a power loss, holds the whole event, the uploader has only
      ever delivered whole events, and a base record is whole once its capture began. */
  lemma FilesAreWhole(c: Config, actions: seq<Action>, x: Id)
    requires Reached(c, actions).Some?
    ensures Whole(Reached(c, actions).value, x)
    ensures var s := Reached(c, actions).value;
            var e := Name(x, Event);
            e in s.fs.entries ==>
              && s.fs.entries[e] < |s.fs.files| && x in s.events
              && s.fs.files[s.fs.entries[e]] == File(s.events[x], true)
  {
    EveryRunKeepsInv(c, actions);
    var s := Reached(c, actions).value;
    assert IdOk(c, s, x);
    assert Entry(s.fs, Name(x, Event)) in OnDisk(s.fs, Name(x, Event));
  }

  /** What `Solid` buys: a power loss at that point leaves the file there. */
  lemma SolidSurvives(c: Config, s: State, a: Action, n: Name)
    requires Enabled(c, s, a) && a.PowerLoss? && Solid(s.fs, n)
    ensures n in After(c, s, a).fs.entries
  {
    assert (if n in a.survivors then Some(a.survivors[n]) else None) in OnDisk(s.fs, n);
  }

  /** On a system with directory syncs no run loses a capture. On one without them a run does:
      the capture has begun, nothing was delivered, and no file of it is left. */
  lemma NoCaptureIsLostIffPosix(c: Config)
    requires c.maxPending > 0 && c.window > 0
    ensures c.posix <==>
            forall actions, x :: Reached(c, actions).Some? ==> NotLost(Reached(c, actions).value, x)
  {
    if c.posix {
      forall actions, x | Reached(c, actions).Some? ensures NotLost(Reached(c, actions).value, x) {
        EveryRunKeepsInv(c, actions);
        assert IdOk(c, Reached(c, actions).value, x);
      }
    } else {
      var actions := LosingRun(c);
      assert !NotLost(Reached(c, actions).value, 0);
    }
  }

  lemma LosingRun(c: Config) returns (actions: seq<Action>)
    requires !c.posix && c.maxPending > 0 && c.window > 0
    ensures Reached(c, actions).Some?
    ensures var s := Reached(c, actions).value;
            0 in s.begun && 0 !in s.delivered && s.fs.entries == map[] && !NotLost(s, 0)
  {
    var run, s := BeginWithoutDirectorySync(c);
    assert MaySurvive(s.fs, map[]);
    run, s := Then(c, run, s, PowerLoss(map[], [""]));
    assert Name(0, Pending) !in s.fs.entries && Name(0, Event) !in s.fs.entries;
    assert OnDisk(s.fs, Name(0, Pending)) == {None};
    actions := run;
  }

  /** The file system in the middle of the first capture, before any directory sync. */
  function OneFile(content: string, synced: bool): Fs {
    Fs(map[Name(0, Pending) := 0], map[Name(0, Pending) := {None, Some(0)}], [File(content, synced)])
  }

  /** The states of the first capture's `begin_capture`, one operation at a time. */
  function FirstCapture(fs: Fs, phase: Phase): State {
    State(fs, map[0 := phase], map[0 := "{}"], if phase == Open then {0} else {}, map[], map[], 0)
  }

  lemma FirstCreate(c: Config)
    ensures var s := FirstCapture(EMPTY.fs, Beginning(0));
            Enabled(c, s, Step(0)) && After(c, s, Step(0)) == FirstCapture(OneFile("", false), Beginning(1))
  {
    var none: set<Option<Inode>> := {None};
    assert none + {Some(0)} == {None, Some(0)};
  }

  lemma FirstStep(c: Config, before: Fs, pc: nat, after: Fs)
    requires 1 <= pc <= 3 && !c.posix
    requires var op := BeginProgram(0, "{}")[pc]; Succeeds(before, op) && Apply(false, before, op) == after
    ensures var s := FirstCapture(before, Beginning(pc));
            Enabled(c, s, Step(0)) &&
            After(c, s, Step(0)) == FirstCapture(after, if pc == 3 then Open else Beginning(pc + 1))
  {
  }

  lemma BeginWithoutDirectorySync(c: Config) returns (run: seq<Action>, s: State)
    requires !c.posix && c.maxPending > 0 && c.window > 0
    ensures Reached(c, run) == Some(s) && s == FirstCapture(OneFile("{}", true), Open)
  {
    assert Counted(EMPTY.fs) == {} && InWindow(EMPTY) == {};
    run, s := Then(c, [], EMPTY, Count(0, "{}"));
    FirstCreate(c);
    run, s := Then(c, run, s, Step(0));
    FirstStep(c, OneFile("", false), 1, OneFile("{}", false));
    run, s := Then(c, run, s, Step(0));
    FirstStep(c, OneFile("{}", false), 2, OneFile("{}", true));
    run, s := Then(c, run, s, Step(0));
    FirstStep(c, OneFile("{}", true), 3, OneFile("{}", true));
    run, s := Then(c, run, s, Step(0));
  }
}
