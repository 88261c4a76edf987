/** How many captures the spool can hold. */
module SpoolCapacity {
  import opened Options
  import opened SpoolFiles
  import opened SpoolProtocol
  import opened SpoolSafety

  /** Ids with a file, and ids whose capacity check passed but whose file is not written yet,
      never outnumber the limit by more than the concurrency and what power losses brought
      back. */
  ghost predicate WithinCapacity(c: Config, s: State) {
    |LiveIds(s.fs)| + |InWindow(s)| <= c.maxPending + c.window - 1 + s.resurrected
  }

  lemma LiveIsNamed(fs: Fs, x: Id)
    ensures x in LiveIds(fs) <==> Name(x, Pending) in fs.entries || Name(x, Event) in fs.entries
  {
    if n :| n in Counted(fs) && n.id == x {
      assert n == Name(x, n.kind);
    }
    assert forall k :: Name(x, k) in fs.entries && k != Writing ==> Name(x, k) in Counted(fs);
  }

  lemma SubsetIsSmaller<T>(a: set<T>, b: set<T>)
    requires a <= b
    ensures |a| <= |b|
  {
    assert b == a + (b - a);
  }

  lemma CountKeepsCapacity(c: Config, s: State, a: Action)
    requires a.Count? && Inv(c, s) && Enabled(c, s, a)
    ensures WithinCapacity(c, After(c, s, a))
  {
    CountEntersWindow(c, s, a.id, a.base);
    FewerIdsThanNames(Counted(s.fs));
  }

  /** A count takes a place in the window and touches no file. */
  lemma CountEntersWindow(c: Config, s: State, id: Id, base: string)
    requires Enabled(c, s, Count(id, base))
    ensures var t := After(c, s, Count(id, base));
            && InWindow(t) == InWindow(s) + {id}
            && t.fs == s.fs && t.bases.Keys == s.bases.Keys + {id} && t.resurrected == s.resurrected
  {
    NewInWindow(s, After(c, s, Count(id, base)), id);
  }

  lemma NewInWindow(s: State, t: State, id: Id)
    requires t.captures == s.captures[id := Beginning(0)]
    ensures InWindow(t) == InWindow(s) + {id}
  {
  }

  /** A step only adds a counted file to a capture that has one, or is about to get one. */
  lemma StepAddsOnlyToItself(c: Config, s: State, x: Id, m: Name)
    requires Inv(c, s) && Enabled(c, s, Step(x))
    requires m in Apply(c.posix, s.fs, Next(s, x)).entries && m.kind != Writing
    ensures m in s.fs.entries ||
            (m.id == x && (s.captures[x] == Beginning(0) || Name(x, Pending) in s.fs.entries))
  {
    assert IdOk(c, s, x);
  }

  lemma StepKeepsCapacity(c: Config, s: State, x: Id)
    requires Inv(c, s) && Enabled(c, s, Step(x)) && WithinCapacity(c, s)
    ensures WithinCapacity(c, After(c, s, Step(x)))
  {
    var t := After(c, s, Step(x));
    var grown := if s.captures[x] == Beginning(0) then {x} else {};
    forall y | y in LiveIds(t.fs) ensures y in LiveIds(s.fs) + grown {
      LiveIsNamed(t.fs, y);
      StepAddsOnlyToItself(c, s, x, if Name(y, Pending) in t.fs.entries then Name(y, Pending) else Name(y, Event));
      LiveIsNamed(s.fs, y);
    }
    SubsetIsSmaller(LiveIds(t.fs), LiveIds(s.fs) + grown);
    StepLeavesWindow(c, s, x);
    assert |grown| == 1 ==> x in InWindow(s);
  }

  lemma StepLeavesWindow(c: Config, s: State, x: Id)
    requires Enabled(c, s, Step(x))
    ensures InWindow(After(c, s, Step(x))) == InWindow(s) - {x}
  {
    assert Advanced(s.captures[x]) != Some(Beginning(0));
  }

  lemma OthersKeepCapacity(c: Config, s: State, a: Action)
    requires Inv(c, s) && Enabled(c, s, a) && WithinCapacity(c, s)
    requires !a.Count? && !a.Step? && !a.PowerLoss?
    ensures WithinCapacity(c, After(c, s, a))
  {
    var t := After(c, s, a);
    forall y ensures y in LiveIds(t.fs) ==> y in LiveIds(s.fs) {
      LiveIsNamed(s.fs, y);
      LiveIsNamed(t.fs, y);
    }
    SubsetIsSmaller(LiveIds(t.fs), LiveIds(s.fs));
    SubsetIsSmaller(InWindow(t), InWindow(s));
  }

  lemma PowerLossKeepsCapacity(c: Config, s: State, a: Action)
    requires a.PowerLoss? && Enabled(c, s, a) && WithinCapacity(c, s)
    ensures WithinCapacity(c, After(c, s, a))
  {
    var t := After(c, s, a);
    var back := LiveIds(t.fs) - LiveIds(s.fs);
    SubsetIsSmaller(LiveIds(t.fs), LiveIds(s.fs) + back);
    assert InWindow(t) == {};
  }

  /** In every run, however captures, deaths, deliveries and power losses interleave. */
  lemma {:induction false} EveryRunIsWithinCapacity(c: Config, actions: seq<Action>)
    requires c.maxPending > 0 && c.window > 0
    requires Reached(c, actions).Some?
    ensures WithinCapacity(c, Reached(c, actions).value)
    decreases |actions|
  {
    if actions == [] {
      assert LiveIds(EMPTY.fs) == {} && InWindow(EMPTY) == {};
    } else {
      var last := |actions| - 1;
      var s, a := Reached(c, actions[..last]).value, actions[last];
      EveryRunIsWithinCapacity(c, actions[..last]);
      EveryRunKeepsInv(c, actions[..last]);
      match a
      case Count(_, _) => CountKeepsCapacity(c, s, a);
      case Step(x) => StepKeepsCapacity(c, s, x);
      case PowerLoss(_, _) => PowerLossKeepsCapacity(c, s, a);
      case _ => OthersKeepCapacity(c, s, a);
    }
  }

  // ----- Exactly when the limit survives power losses --------------------------------

  /** Every counted file that is there, or might be there after a power loss, belongs to an id
      that counts now: of no id does the removal of the last file still wait for a directory
      sync. */
  ghost predicate Settled(fs: Fs) {
    forall n: Name, i :: n.kind != Writing && Some(i) in OnDisk(fs, n) ==> n.id in LiveIds(fs)
  }

  /** The ids that count when these directory entries come back. */
  function IdsOf(survivors: map<Name, Inode>): set<Id> {
    LiveIds(Fs(survivors, map[], []))
  }

  /** Settled directories are exactly those to which no power loss can bring an id back. */
  lemma SettledIffNothingComesBack(fs: Fs)
    requires FsOk(fs)
    ensures Settled(fs) <==> forall survivors :: MaySurvive(fs, survivors) ==> IdsOf(survivors) <= LiveIds(fs)
  {
    if Settled(fs) {
      forall survivors | MaySurvive(fs, survivors) ensures IdsOf(survivors) <= LiveIds(fs) {
        NothingComesBackToSettled(fs, survivors);
      }
    } else {
      var n: Name, i :| n.kind != Writing && Some(i) in OnDisk(fs, n) && n.id !in LiveIds(fs);
      MayComeBack(fs, n, i);
      LiveIsNamed(Fs(fs.entries[n := i], map[], []), n.id);
      assert n.id in IdsOf(fs.entries[n := i]);
    }
  }

  lemma NothingComesBackToSettled(fs: Fs, survivors: map<Name, Inode>)
    requires Settled(fs) && MaySurvive(fs, survivors)
    ensures IdsOf(survivors) <= LiveIds(fs)
  {
    forall x | x in IdsOf(survivors) ensures x in LiveIds(fs) {
      LiveIsNamed(Fs(survivors, map[], []), x);
      var n := if Name(x, Pending) in survivors then Name(x, Pending) else Name(x, Event);
      assert (if n in survivors then Some(survivors[n]) else None) in OnDisk(fs, n);
    }
  }

  lemma MayComeBack(fs: Fs, n: Name, file: Inode)
    requires FsOk(fs) && Some(file) in OnDisk(fs, n)
    ensures MaySurvive(fs, fs.entries[n := file])
  {
    forall m: Name
      ensures (if m in fs.entries[n := file] then Some(fs.entries[n := file][m]) else None) in OnDisk(fs, m)
    {
      assert Entry(fs, m) in OnDisk(fs, m);
    }
  }

  /** Every power loss of the run strikes a settled directory. */
  ghost predicate LossesStrikeSettled(c: Config, actions: seq<Action>) {
    forall k | 0 <= k < |actions| && actions[k].PowerLoss? && Reached(c, actions[..k]).Some? ::
      Settled(Reached(c, actions[..k]).value.fs)
  }

  lemma {:induction false} NothingComesBackInRun(c: Config, actions: seq<Action>)
    requires Reached(c, actions).Some? && LossesStrikeSettled(c, actions)
    ensures Reached(c, actions).value.resurrected == 0
    decreases |actions|
  {
    if actions != [] {
      var last := |actions| - 1;
      EarlierLossesStrikeSettled(c, actions);
      NothingComesBackInRun(c, actions[..last]);
      if actions[last].PowerLoss? {
        SettledLossBringsNothingBack(c, Reached(c, actions[..last]).value, actions[last]);
      }
    }
  }

  lemma EarlierLossesStrikeSettled(c: Config, actions: seq<Action>)
    requires actions != [] && LossesStrikeSettled(c, actions)
    ensures LossesStrikeSettled(c, actions[..|actions| - 1])
  {
    var before := actions[..|actions| - 1];
    assert forall k | 0 <= k < |before| :: before[..k] == actions[..k] && before[k] == actions[k];
  }

  lemma SettledLossBringsNothingBack(c: Config, s: State, a: Action)
    requires a.PowerLoss? && Enabled(c, s, a) && Settled(s.fs)
    ensures After(c, s, a).resurrected == s.resurrected
  {
    NothingComesBackToSettled(s.fs, a.survivors);
    SameEntriesSameIds(After(c, s, a).fs, Fs(a.survivors, map[], []));
    assert LiveIds(After(c, s, a).fs) - LiveIds(s.fs) == {};
  }

  lemma SameEntriesSameIds(fs: Fs, gs: Fs)
    requires fs.entries == gs.entries
    ensures LiveIds(fs) == LiveIds(gs)
  {
    assert Counted(fs) == Counted(gs);
  }

  /** The limit is exceeded by less than the number of concurrent checks in every run, with any
      number of power losses, as long as each strikes a settled directory. One capture at a time
      never exceeds it. */
  lemma LimitHoldsWhileSettled(c: Config, actions: seq<Action>)
    requires c.maxPending > 0 && c.window > 0
    requires Reached(c, actions).Some? && LossesStrikeSettled(c, actions)
    ensures |LiveIds(Reached(c, actions).value.fs)| <= c.maxPending + c.window - 1
  {
    EveryRunIsWithinCapacity(c, actions);
    NothingComesBackInRun(c, actions);
  }
}
