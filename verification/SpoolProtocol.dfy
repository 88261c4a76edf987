/** Any number of captures sharing one spool directory with an uploader, with processes
    dying and power being lost at any point. */
module SpoolProtocol {
  import opened Options
  import opened SpoolFiles

  /** `window` bounds how many `begin_capture` calls are between their count and their write
      at the same time. */
  datatype Config = Config(posix: bool, maxPending: nat, window: nat)

  /** Where a capture is: the next operation of its program, or between the two calls. */
  datatype Phase = Beginning(pc: nat) | Open | Finishing(pc: nat)

  datatype State = State(
    fs: Fs,
    captures: map<Id, Phase>,
    bases: map<Id, string>,
    begun: set<Id>,
    events: map<Id, string>,
    delivered: map<Id, string>,
    resurrected: nat)

  const EMPTY := State(Fs(map[], map[], []), map[], map[], {}, map[], map[], 0)

  datatype Action =
    | Count(id: Id, base: string)
    | Step(id: Id)
    | WritePart(id: Id, length: nat)
    | CallFinish(id: Id, event: string)
    | Stop(id: Id)
    | Deliver(id: Id)
    | DropPending(id: Id)
    | UploaderSync
    | PowerLoss(survivors: map<Name, Inode>, garbage: seq<string>)

  function InWindow(s: State): set<Id> {
    set x | x in s.captures && s.captures[x] == Beginning(0)
  }

  function Program(s: State, id: Id): seq<Op>
    requires id in s.captures
  {
    match s.captures[id]
    case Beginning(_) => if id in s.bases then BeginProgram(id, s.bases[id]) else []
    case Open => []
    case Finishing(_) => if id in s.events then FinishProgram(id, s.events[id]) else []
  }

  function Pc(phase: Phase): nat {
    match phase
    case Beginning(pc) => pc
    case Open => 0
    case Finishing(pc) => pc
  }

  predicate HasNext(s: State, id: Id) {
    id in s.captures && Pc(s.captures[id]) < |Program(s, id)|
  }

  function Next(s: State, id: Id): Op
    requires HasNext(s, id)
  {
    Program(s, id)[Pc(s.captures[id])]
  }

  ghost predicate Enabled(c: Config, s: State, a: Action) {
    match a
    case Count(id, _) =>
      id !in s.bases && |Counted(s.fs)| < c.maxPending && |InWindow(s)| < c.window
    case Step(id) => HasNext(s, id) && Succeeds(s.fs, Next(s, id))
    case WritePart(id, length) =>
      && HasNext(s, id) && Next(s, id).WriteText? && Succeeds(s.fs, Next(s, id))
      && length <= |Next(s, id).text|
    case CallFinish(id, _) => id in s.captures && s.captures[id] == Open
    case Stop(id) => id in s.captures
    case Deliver(id) =>
      Name(id, Event) in s.fs.entries && s.fs.entries[Name(id, Event)] < |s.fs.files|
    case DropPending(id) => id in s.delivered
    case UploaderSync => true
    case PowerLoss(survivors, garbage) => |garbage| == |s.fs.files| && MaySurvive(s.fs, survivors)
  }

  /** The phase after the operation at `pc`, or `None` when the capture is over. */
  function Advanced(phase: Phase): Option<Phase> {
    match phase
    case Beginning(pc) => if pc < 3 then Some(Beginning(pc + 1)) else Some(Open)
    case Open => Some(Open)
    case Finishing(pc) => if pc < 5 then Some(Finishing(pc + 1)) else None
  }

  ghost function After(c: Config, s: State, a: Action): (r: State)
    requires Enabled(c, s, a)
  {
    match a
    case Count(id, base) => s.(captures := s.captures[id := Beginning(0)], bases := s.bases[id := base])
    case Step(id) =>
      var phase := Advanced(s.captures[id]);
      s.(fs := Apply(c.posix, s.fs, Next(s, id)),
         captures := if phase.Some? then s.captures[id := phase.value] else s.captures - {id},
         begun := if phase == Some(Open) then s.begun + {id} else s.begun)
    case WritePart(id, length) =>
      s.(fs := Apply(c.posix, s.fs, WriteText(Next(s, id).name, Next(s, id).text[..length])))
    case CallFinish(id, event) =>
      s.(captures := s.captures[id := Finishing(0)], events := s.events[id := event])
    case Stop(id) => s.(captures := s.captures - {id})
    case Deliver(id) =>
      var n := Name(id, Event);
      s.(fs := Apply(c.posix, s.fs, Unlink(n)),
         delivered := s.delivered[id := s.fs.files[s.fs.entries[n]].content])
    case DropPending(id) => s.(fs := Apply(c.posix, s.fs, Unlink(Name(id, Pending))))
    case UploaderSync => s.(fs := Apply(c.posix, s.fs, SyncDirectory))
    case PowerLoss(survivors, garbage) =>
      var fs := AfterPowerLoss(s.fs, survivors, garbage);
      s.(fs := fs, captures := map[], resurrected := s.resurrected + |LiveIds(fs) - LiveIds(s.fs)|)
  }

  /** Where a run from an empty spool ends, or `None` when some action is not possible. */
  ghost function Reached(c: Config, actions: seq<Action>): Option<State>
    decreases |actions|
  {
    if actions == [] then Some(EMPTY) else
    var last := |actions| - 1;
    var before := Reached(c, actions[..last]);
    if before.Some? && Enabled(c, before.value, actions[last])
    then Some(After(c, before.value, actions[last]))
    else None
  }

  /** One more action at the end of a run. */
  lemma Then(c: Config, run: seq<Action>, s: State, a: Action) returns (longer: seq<Action>, t: State)
    requires Reached(c, run) == Some(s) && Enabled(c, s, a)
    ensures longer == run + [a] && t == After(c, s, a) && Reached(c, longer) == Some(t)
  {
    longer, t := run + [a], After(c, s, a);
    assert longer[..|longer| - 1] == run;
  }
}
