/** A spool directory on a file system that may lose power. */
module SpoolFiles {
  import opened Options

  type Id = nat
  type Inode = nat

  datatype Kind = Pending | Writing | Event

  /** `<id>.pending`, `<id>.writing` and `<id>.event.json`. */
  datatype Name = Name(id: Id, kind: Kind)

  datatype File = File(content: string, synced: bool)

  /** `entries` is what running processes see. `disk` gives, for every name touched so far,
      all the values its entry may have after a power loss: the one at the last directory
      sync and every one since. */
  datatype Fs = Fs(entries: map<Name, Inode>, disk: map<Name, set<Option<Inode>>>, files: seq<File>)

  function Entry(fs: Fs, n: Name): Option<Inode> {
    if n in fs.entries then Some(fs.entries[n]) else None
  }

  function OnDisk(fs: Fs, n: Name): (values: set<Option<Inode>>) {
    if n in fs.disk then fs.disk[n] else {None}
  }

  datatype Op =
    | Create(name: Name)
    | WriteText(name: Name, text: string)
    | SyncFile(name: Name)
    | Replace(source: Name, target: Name)
    | SyncDirectory
    | Unlink(name: Name)

  /** Whether the operation succeeds; otherwise it raises and changes nothing. */
  predicate Succeeds(fs: Fs, op: Op) {
    match op
    case Create(n) => n !in fs.entries
    case WriteText(n, _) => n in fs.entries && fs.entries[n] < |fs.files|
    case SyncFile(n) => n in fs.entries && fs.entries[n] < |fs.files|
    case Replace(source, target) => source in fs.entries && source != target
    case SyncDirectory => true
    case Unlink(_) => true
  }

  function Set(fs: Fs, n: Name, value: Option<Inode>): Fs {
    fs.(entries := if value.Some? then fs.entries[n := value.value] else fs.entries - {n},
        disk := fs.disk[n := OnDisk(fs, n) + {value}])
  }

  /** Directory entries reach the disk only by a directory sync, which Windows does not have. */
  function Apply(posix: bool, fs: Fs, op: Op): (r: Fs)
    requires Succeeds(fs, op)
  {
    match op
    case Create(n) => Set(fs, n, Some(|fs.files|)).(files := fs.files + [File("", false)])
    case WriteText(n, text) => fs.(files := fs.files[fs.entries[n] := File(text, false)])
    case SyncFile(n) => fs.(files := fs.files[fs.entries[n] := fs.files[fs.entries[n]].(synced := true)])
    case Replace(source, target) => Set(Set(fs, target, Some(fs.entries[source])), source, None)
    case SyncDirectory => if posix then fs.(disk := map n | n in fs.disk :: {Entry(fs, n)}) else fs
    case Unlink(n) => if n in fs.entries then Set(fs, n, None) else fs
  }

  // ----- Power loss ----------------------------------------------------------------

  /** Any subset of the directory updates since the last sync may be lost, name by name. */
  ghost predicate MaySurvive(fs: Fs, survivors: map<Name, Inode>) {
    forall n: Name :: (if n in survivors then Some(survivors[n]) else None) in OnDisk(fs, n)
  }

  /** What comes back: the surviving entries, the contents of synced files, and anything at
      all in the others. */
  function AfterPowerLoss(fs: Fs, survivors: map<Name, Inode>, garbage: seq<string>): Fs
    requires |garbage| == |fs.files|
  {
    Fs(survivors,
       map n | n in fs.disk :: {if n in survivors then Some(survivors[n]) else None},
       seq(|fs.files|, i requires 0 <= i < |fs.files| =>
         if fs.files[i].synced then fs.files[i] else File(garbage[i], true)))
  }

  // ----- The two programs ----------------------------------------------------------

  function BeginProgram(id: Id, base: string): seq<Op> {
    [Create(Name(id, Pending)), WriteText(Name(id, Pending), base), SyncFile(Name(id, Pending)), SyncDirectory]
  }

  function FinishProgram(id: Id, event: string): seq<Op> {
    [Create(Name(id, Writing)), WriteText(Name(id, Writing), event), SyncFile(Name(id, Writing)),
     Replace(Name(id, Writing), Name(id, Event)), SyncDirectory, Unlink(Name(id, Pending))]
  }

  // ----- Counting ------------------------------------------------------------------

  /** The names the capacity check counts. */
  function Counted(fs: Fs): set<Name> {
    set n | n in fs.entries && n.kind != Writing
  }

  /** The event ids with a `.pending` or an `.event.json` file. */
  function LiveIds(fs: Fs): set<Id> {
    set n | n in Counted(fs) :: n.id
  }

  lemma {:induction false} FewerIdsThanNames(names: set<Name>)
    ensures |set n | n in names :: n.id| <= |names|
  {
    if names != {} {
      var m :| m in names;
      FewerIdsThanNames(names - {m});
      var rest := set n | n in names - {m} :: n.id;
      assert (set n | n in names :: n.id) == rest + {m.id};
    }
  }
}
