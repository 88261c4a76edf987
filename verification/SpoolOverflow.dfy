/** A run that exceeds the spool limit, for every limit and every degree of concurrency. */
module SpoolOverflow {
  import opened Options
  import opened SpoolFiles
  import opened SpoolProtocol
  import opened SpoolSafety
  import opened SpoolCapacity

  predicate IsPositive(c: Config) {
    c.maxPending > 0 && c.window > 0
  }

  /** A run to `s` without a power loss. */
  ghost predicate LossFree(c: Config, run: seq<Action>, s: State) {
    Reached(c, run) == Some(s) && forall a | a in run :: !a.PowerLoss?
  }

  lemma Take(c: Config, run: seq<Action>, s: State, a: Action) returns (longer: seq<Action>, t: State)
    requires LossFree(c, run, s) && Enabled(c, s, a) && !a.PowerLoss?
    ensures longer == run + [a] && t == After(c, s, a) && LossFree(c, longer, t)
  {
    longer, t := Then(c, run, s, a);
  }

  // ----- A delivered capture that may come back --------------------------------------

  /** The only capture takes its next operation. */
  lemma Alone(c: Config, run: seq<Action>, s: State, phase: Phase) returns (longer: seq<Action>, t: State)
    requires LossFree(c, run, s) && s.captures == map[0 := phase]
    requires HasNext(s, 0) && Succeeds(s.fs, Next(s, 0)) && Advanced(phase).Some?
    ensures LossFree(c, longer, t)
    ensures t.captures == map[0 := Advanced(phase).value]
    ensures t.fs == Apply(c.posix, s.fs, Next(s, 0))
    ensures (t.bases, t.events, t.delivered) == (s.bases, s.events, s.delivered)
  {
    longer, t := Take(c, run, s, Step(0));
  }

  /** A capture that began: its marker is there. */
  lemma CaptureBegun(c: Config) returns (run: seq<Action>, s: State)
    requires IsPositive(c)
    ensures LossFree(c, run, s) && s.captures == map[0 := Open]
    ensures s.fs.entries == map[Name(0, Pending) := 0] && |s.fs.files| == 1
    ensures s.bases == map[0 := "{}"] && s.delivered == map[]
  {
    assert Counted(EMPTY.fs) == {} && InWindow(EMPTY) == {};
    run, s := Take(c, [], EMPTY, Count(0, "{}"));
    run, s := Alone(c, run, s, Beginning(0));
    run, s := Alone(c, run, s, Beginning(1));
    run, s := Alone(c, run, s, Beginning(2));
    run, s := Alone(c, run, s, Beginning(3));
  }

  /** Its event is written under the temporary name. */
  lemma CaptureWritten(c: Config) returns (run: seq<Action>, s: State)
    requires IsPositive(c)
    ensures LossFree(c, run, s) && s.captures == map[0 := Finishing(2)]
    ensures s.fs.entries == map[Name(0, Pending) := 0, Name(0, Writing) := 1] && |s.fs.files| == 2
    ensures s.bases == map[0 := "{}"] && 0 in s.events
  {
    run, s := CaptureBegun(c);
    run, s := Take(c, run, s, CallFinish(0, "[]"));
    run, s := Alone(c, run, s, Finishing(0));
    run, s := Alone(c, run, s, Finishing(1));
  }

  /** The event is renamed into place. */
  lemma CaptureRenamed(c: Config) returns (run: seq<Action>, s: State)
    requires IsPositive(c)
    ensures LossFree(c, run, s) && s.captures == map[0 := Finishing(4)]
    ensures s.fs.entries == map[Name(0, Pending) := 0, Name(0, Event) := 1] && |s.fs.files| == 2
    ensures s.bases == map[0 := "{}"]
  {
    run, s := CaptureWritten(c);
    run, s := Alone(c, run, s, Finishing(2));
    run, s := Alone(c, run, s, Finishing(3));
  }

  /** The event is delivered at once, and the uploader has removed both files, but the
      directory is not synced yet: the spool is empty, and the marker may come back. */
  lemma CaptureDelivered(c: Config) returns (run: seq<Action>, s: State)
    requires IsPositive(c)
    ensures LossFree(c, run, s) && Filled(s, 0, 0)
  {
    var p := Name(0, Pending);
    run, s := CaptureRenamed(c);
    EveryRunKeepsInv(c, run);
    assert Entry(s.fs, p) in OnDisk(s.fs, p);
    run, s := Take(c, run, s, Deliver(0));
    run, s := Take(c, run, s, DropPending(0));
  }

  // ----- Filling the spool -----------------------------------------------------------

  lemma {:induction false} IntervalSize(ids: set<Id>, low: int, size: nat)
    requires low >= -1 && forall x :: x in ids <==> low < x <= low + size
    ensures |ids| == size
  {
    if size == 0 {
      assert ids == {};
    } else {
      IntervalSize(ids - {low + size}, low, size - 1);
    }
  }

  predicate IsMarker(m: Name, n: nat) {
    m.kind == Pending && 1 <= m.id <= n
  }

  lemma {:induction false} MarkersSize(names: set<Name>, n: nat)
    requires forall m: Name :: m in names <==> IsMarker(m, n)
    ensures |names| == n
  {
    if n == 0 {
      assert names == {};
    } else {
      assert IsMarker(Name(n, Pending), n);
      MarkersSize(names - {Name(n, Pending)}, n - 1);
    }
  }

  /** The ids from `1` to `n` have their markers, the next `w` ids have passed their check, and
      no other id was used but `0`, whose marker may come back. */
  ghost predicate Filled(s: State, n: nat, w: nat) {
    && (forall m: Name :: m in s.fs.entries <==> IsMarker(m, n))
    && Some(0) in OnDisk(s.fs, Name(0, Pending))
    && (forall x :: x in InWindow(s) <==> n < x <= n + w)
    && InWindow(s) <= s.bases.Keys
    && (forall x | x in s.bases :: x <= n + w)
  }

  lemma CountIsPossible(c: Config, s: State, n: nat, w: nat)
    requires Filled(s, n, w) && n < c.maxPending && w < c.window
    ensures Enabled(c, s, Count(n + w + 1, "{}"))
  {
    IntervalSize(InWindow(s), n, w);
    MarkersSize(Counted(s.fs), n);
  }

  lemma FilledOneMore(s: State, t: State, n: nat, w: nat)
    requires Filled(s, n, w) && t.fs == s.fs
    requires InWindow(t) == InWindow(s) + {n + w + 1}
    requires t.bases.Keys == s.bases.Keys + {n + w + 1}
    ensures Filled(t, n, w + 1)
  {
  }

  lemma WriteIsNext(s: State, n: nat, w: nat)
    requires Filled(s, n, w) && w > 0
    ensures HasNext(s, n + 1) && s.captures[n + 1] == Beginning(0)
    ensures Next(s, n + 1) == Create(Name(n + 1, Pending)) && Succeeds(s.fs, Next(s, n + 1))
  {
    assert n + 1 in InWindow(s) && !IsMarker(Name(n + 1, Pending), n);
  }

  lemma WriteStep(c: Config, s: State, n: nat, w: nat)
    requires Filled(s, n, w) && w > 0
    ensures Enabled(c, s, Step(n + 1)) && Filled(After(c, s, Step(n + 1)), n + 1, w - 1)
  {
    WriteIsNext(s, n, w);
    StepLeavesWindow(c, s, n + 1);
    CreateAddsEntry(c.posix, s.fs, Name(n + 1, Pending));
    MarkerAdded(s.fs, Apply(c.posix, s.fs, Create(Name(n + 1, Pending))), n);
  }

  lemma CreateAddsEntry(posix: bool, fs: Fs, n: Name)
    requires n !in fs.entries
    ensures Apply(posix, fs, Create(n)).entries.Keys == fs.entries.Keys + {n}
    ensures forall m: Name :: OnDisk(fs, m) <= OnDisk(Apply(posix, fs, Create(n)), m)
  {
  }

  lemma MarkerAdded(fs: Fs, gs: Fs, n: nat)
    requires forall m: Name :: m in fs.entries <==> IsMarker(m, n)
    requires gs.entries.Keys == fs.entries.Keys + {Name(n + 1, Pending)}
    ensures forall m: Name :: m in gs.entries <==> IsMarker(m, n + 1)
  {
    forall m: Name ensures m in gs.entries <==> IsMarker(m, n + 1) {
      assert m in gs.entries.Keys <==> m in fs.entries.Keys || m == Name(n + 1, Pending);
    }
  }

  lemma CountStep(c: Config, s: State, n: nat, w: nat)
    requires Filled(s, n, w) && n < c.maxPending && w < c.window
    ensures Enabled(c, s, Count(n + w + 1, "{}")) && Filled(After(c, s, Count(n + w + 1, "{}")), n, w + 1)
  {
    CountIsPossible(c, s, n, w);
    CountEntersWindow(c, s, n + w + 1, "{}");
    FilledOneMore(s, After(c, s, Count(n + w + 1, "{}")), n, w);
  }

  /** One more capture passes its check. */
  lemma OneCounts(c: Config, run: seq<Action>, s: State, n: nat, w: nat)
      returns (longer: seq<Action>, t: State)
    requires LossFree(c, run, s) && Filled(s, n, w) && n < c.maxPending && w < c.window
    ensures LossFree(c, longer, t) && Filled(t, n, w + 1)
  {
    CountStep(c, s, n, w);
    longer, t := Take(c, run, s, Count(n + w + 1, "{}"));
  }

  /** The capture that passed its check first writes its marker. */
  lemma OneWrites(c: Config, run: seq<Action>, s: State, n: nat, w: nat)
      returns (longer: seq<Action>, t: State)
    requires LossFree(c, run, s) && Filled(s, n, w) && w > 0
    ensures LossFree(c, longer, t) && Filled(t, n + 1, w - 1)
  {
    WriteStep(c, s, n, w);
    longer, t := Take(c, run, s, Step(n + 1));
  }

  /** One after the other, captures fill the spool up to one place. */
  lemma {:induction false} FillInTurn(c: Config, n: nat) returns (run: seq<Action>, s: State)
    requires IsPositive(c) && n < c.maxPending
    ensures LossFree(c, run, s) && Filled(s, n, 0)
  {
    if n == 0 {
      run, s := CaptureDelivered(c);
    } else {
      run, s := FillInTurn(c, n - 1);
      run, s := OneCounts(c, run, s, n - 1, 0);
      run, s := OneWrites(c, run, s, n - 1, 1);
    }
  }

  /** As many captures as may check at once all see the last free place. */
  lemma {:induction false} CountTogether(c: Config, w: nat) returns (run: seq<Action>, s: State)
    requires IsPositive(c) && w <= c.window
    ensures LossFree(c, run, s) && Filled(s, c.maxPending - 1, w)
  {
    if w == 0 {
      run, s := FillInTurn(c, c.maxPending - 1);
    } else {
      run, s := CountTogether(c, w - 1);
      run, s := OneCounts(c, run, s, c.maxPending - 1, w - 1);
    }
  }

  /** They write their markers. */
  lemma {:induction false} WriteTogether(c: Config, run: seq<Action>, s: State, n: nat, w: nat)
      returns (longer: seq<Action>, t: State)
    requires LossFree(c, run, s) && Filled(s, n, w)
    ensures LossFree(c, longer, t) && Filled(t, n + w, 0)
    decreases w
  {
    longer, t := run, s;
    if w > 0 {
      longer, t := OneWrites(c, longer, t, n, w);
      longer, t := WriteTogether(c, longer, t, n + 1, w - 1);
    }
  }

  lemma FilledIds(fs: Fs, n: nat)
    requires forall m: Name :: m in fs.entries <==> IsMarker(m, n) || m == Name(0, Pending)
    ensures |LiveIds(fs)| == n + 1
  {
    forall x: Id ensures x in LiveIds(fs) <==> x <= n {
      LiveIsNamed(fs, x);
      assert IsMarker(Name(x, Pending), n) <==> 1 <= x <= n;
    }
    IntervalSize(LiveIds(fs), -1, n + 1);
  }

  /** Power fails in the full spool, and the delivered marker comes back. */
  lemma OneTooMany(c: Config, s: State, n: nat) returns (a: Action)
    requires FsOk(s.fs) && Filled(s, n, 0)
    ensures a.PowerLoss? && Enabled(c, s, a) && |LiveIds(After(c, s, a).fs)| == n + 1
  {
    MayComeBack(s.fs, Name(0, Pending), 0);
    a := PowerLoss(s.fs.entries[Name(0, Pending) := 0], seq(|s.fs.files|, i => ""));
    FilledIds(After(c, s, a).fs, n);
  }

  /** Whatever the limit and the concurrency, the limit fails in a run with one power loss, at its
      end, in a directory that an uploader emptied and did not sync yet: new captures fill the
      spool, and the delivered one comes back beside them. */
  lemma LimitFailsAfterPowerLoss(c: Config) returns (run: seq<Action>, loss: Action)
    requires IsPositive(c)
    ensures loss.PowerLoss? && forall a | a in run :: !a.PowerLoss?
    ensures Reached(c, run + [loss]).Some?
    ensures |LiveIds(Reached(c, run + [loss]).value.fs)| > c.maxPending + c.window - 1
  {
    var s;
    run, s := CountTogether(c, c.window);
    run, s := WriteTogether(c, run, s, c.maxPending - 1, c.window);
    EveryRunKeepsInv(c, run);
    loss := OneTooMany(c, s, c.maxPending + c.window - 1);
    var longer, t := Then(c, run, s, loss);
  }
}
