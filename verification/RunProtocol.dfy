/** Launches, cancels, events, crashes and restarts as one transition system over the run
    store: what every interleaving keeps. */
module RunProtocol {
  import opened Wrappers
  import opened RunStore
  import Progress

  // ---- how a run ends ----

  datatype RunOutcome = RunOutcome(returnCode: Option<int>, cancelled: bool, error: Option<string>)

  function FinalState(outcome: RunOutcome, progress: Progress.Snapshot): RunState {
    if outcome.cancelled then Cancelled
    else if Progress.Truthy(outcome.error) then Failed
    else if !progress.recapSeen then Interrupted
    else if outcome.returnCode == Some(0) then Success
    else Failed
  }

  /** The adapter returns, or something raises: then the last event may have been applied
      without its line being whole in the log. */
  datatype Ending = Returned(outcome: RunOutcome) | Raised(unlogged: Option<Progress.Event>, torn: bool)

  // ---- state ----

  /** Where a launch, and then its run thread, stands. */
  datatype Phase =
    | Waiting                             // has an id, has not tried the lock
    | Opened                              // created the lock file, still empty
    | Locked                              // wrote its id into it
    | Created                             // record visible, pending
    | Executing(unsaved: bool)            // record running; an applied event may not be saved yet
    | Closing                             // terminal record saved, or creation failed
    | Releasing(holder: Option<RunId>)    // read the lock file, about to unlink it

  predicate Holding(phase: Phase) {
    !phase.Waiting?
  }

  datatype Mode = Down | Booting(todo: seq<RunId>, recovered: bool) | Serving

  /** What happened to a run: the events applied, and how many are in the log and the record. */
  datatype History = History(seen: seq<Progress.Event>, logged: nat, saved: nat)

  const NO_HISTORY := History([], 0, 0)

  /** `cancelled` is the service's set; `checked` holds cancel requests that loaded an
      unfinished record and have not been added yet; `asked` remembers every request added.
      `replay` says that the adapter is the replaying one. */
  datatype State = State(
    replay: bool,
    disk: Disk, mode: Mode, clock: RunId, flights: map<RunId, Phase>,
    cancelled: set<RunId>, checked: set<RunId>,
    histories: map<RunId, History>, asked: set<RunId>)

  function Start(replay: bool): State {
    State(replay, Disk(Absent, map[]), Down, 0, map[], {}, {}, map[], {})
  }

  function PhaseOf(s: State, id: RunId): Option<Phase> {
    if id in s.flights then Some(s.flights[id]) else None
  }

  function DirOf(d: Disk, id: RunId): Option<RunDir> {
    if id in d.runs then Some(d.runs[id]) else None
  }

  function HistoryOf(s: State, id: RunId): History {
    if id in s.histories then s.histories[id] else NO_HISTORY
  }

  // ---- steps ----

  datatype Action =
    | ChooseId
    | Open(id: RunId)
    | Refuse(id: RunId)                       // the lock is taken, or trying for it raises
    | WriteId(id: RunId)
    | WriteFails(id: RunId)
    | Create(id: RunId, request: Request, inventory: string)
    | CreateFails(id: RunId, directoryMade: bool)
    | SaveRunning(id: RunId)
    | Strand(id: RunId)                       // a save or the unlink raises: the lock stays held
    | StrandTorn(id: RunId)                   // so does an append, and then the terminal save
    | Append(id: RunId, event: Progress.Event)
    | SaveProgress(id: RunId)
    | Finish(id: RunId, ending: Ending)
    | ReadHolder(id: RunId)
    | Unlink(id: RunId)
    | CheckCancel(id: RunId)
    | Cancel(id: RunId)
    | Crash(torn: Option<RunId>)
    | Boot(todo: seq<RunId>)
    | BootSave
    | BootDone

  ghost predicate Distinct(ids: seq<RunId>) {
    forall i, j :: 0 <= i < j < |ids| ==> ids[i] != ids[j]
  }

  predicate At(s: State, id: RunId, phase: Phase) {
    s.mode.Serving? && PhaseOf(s, id) == Some(phase) && (phase.Executing? ==> RecordOf(s.disk, id).Some?)
  }

  /** Where an exception leaves the lock behind: a save of the record, the start of the
      thread, or the unlink of the lock file itself. */
  predicate CanStrand(phase: Phase) {
    phase.Created? || phase.Executing? || phase.Closing? || phase.Releasing?
  }

  ghost predicate CanFinish(s: State, id: RunId, ending: Ending) {
    match ending
    case Returned(outcome) =>
      At(s, id, Executing(false)) && (s.replay && outcome.cancelled ==> id in s.cancelled)
    case Raised(unlogged, torn) =>
      if unlogged.Some? then At(s, id, Executing(false))
      else !torn && (At(s, id, Executing(false)) || At(s, id, Executing(true)))
  }

  ghost predicate Enabled(s: State, a: Action) {
    match a
    case ChooseId => s.mode.Serving?
    case Open(id) => At(s, id, Waiting) && s.disk.lock.Absent?
    case Refuse(id) => At(s, id, Waiting)
    case WriteId(id) => At(s, id, Opened)
    case WriteFails(id) => At(s, id, Opened)
    case Create(id, _, _) => At(s, id, Locked)
    case CreateFails(id, _) => At(s, id, Locked)
    case SaveRunning(id) => At(s, id, Created) && RecordOf(s.disk, id).Some?
    case Strand(id) => s.mode.Serving? && id in s.flights && CanStrand(s.flights[id])
    case StrandTorn(id) => At(s, id, Executing(false))
    case Append(id, _) => At(s, id, Executing(false))
    case SaveProgress(id) => At(s, id, Executing(true))
    case Finish(id, ending) => CanFinish(s, id, ending)
    case ReadHolder(id) => At(s, id, Closing)
    case Unlink(id) => s.mode.Serving? && id in s.flights && s.flights[id].Releasing?
    case CheckCancel(id) => s.mode.Serving? && Unfinished(s.disk, id)
    case Cancel(id) => s.mode.Serving? && id in s.checked
    case Crash(torn) => torn.Some? ==> At(s, torn.value, Executing(false))
    case Boot(todo) => s.mode.Down? && Distinct(todo) && forall id :: id in todo <==> id in Recoverable(s.disk)
    case BootSave => s.mode.Booting? && s.mode.todo != [] && RecordOf(s.disk, s.mode.todo[0]).Some?
    case BootDone => s.mode.Booting? && s.mode.todo == []
  }

  function Moved(s: State, id: RunId, phase: Phase): State {
    s.(flights := s.flights[id := phase])
  }

  function Gone(s: State, id: RunId): State {
    s.(flights := s.flights - {id})
  }

  /** The record of a run, rewritten in its own directory. */
  function SetRecord(d: Disk, id: RunId, record: RunRecord): Disk
    requires id in d.runs
  {
    d.(runs := d.runs[id := d.runs[id].(record := Some(record))])
  }

  function Logged(d: Disk, id: RunId, event: Progress.Event): Disk
    requires id in d.runs
  {
    var summary := Progress.Summarise(event);
    if summary.Some? then Appended(d, id, Whole(summary.value)) else d
  }

  function Ended(record: RunRecord, ending: Ending, progress: Progress.Snapshot): RunRecord {
    match ending
    case Returned(outcome) =>
      record.(state := FinalState(outcome, progress), returnCode := outcome.returnCode, progress := progress)
    case Raised(_, _) => record.(state := Failed, progress := progress)
  }

  function FinalHistory(h: History, ending: Ending): History {
    if ending.Raised? && ending.unlogged.Some? then
      History(h.seen + [ending.unlogged.value], h.logged, |h.seen| + 1)
    else h.(saved := |h.seen|)
  }

  function Next(s: State, a: Action): State
    requires Enabled(s, a)
  {
    match a
    case ChooseId => Moved(s, s.clock, Waiting).(clock := s.clock + 1)
    case Open(id) => Moved(s, id, Opened).(disk := s.disk.(lock := Empty))
    case Refuse(id) => Gone(s, id)
    case WriteId(id) => Moved(s, id, Locked).(disk := s.disk.(lock := Holds(id)))
    case WriteFails(id) => Gone(s, id)
    case Create(id, request, inventory) =>
      var record := RunRecord(id, request, Pending, None, Progress.NOTHING);
      Moved(s, id, Created).(disk := Recorded(s.disk, record, inventory))
    case CreateFails(id, directoryMade) =>
      Moved(s, id, Closing).(
        disk := if directoryMade then s.disk.(runs := s.disk.runs[id := RunDir(None, [], "")]) else s.disk)
    case SaveRunning(id) =>
      Moved(s, id, Executing(false)).(disk := SetRecord(s.disk, id, RecordOf(s.disk, id).value.(state := Running)))
    case Strand(id) => Gone(s, id)
    case StrandTorn(id) => Gone(s, id).(disk := Appended(s.disk, id, Torn))
    case Append(id, event) =>
      var h := HistoryOf(s, id);
      Moved(s, id, Executing(true)).(
        disk := Logged(s.disk, id, event),
        histories := s.histories[id := History(h.seen + [event], |h.seen| + 1, h.saved)])
    case SaveProgress(id) =>
      var h := HistoryOf(s, id);
      Moved(s, id, Executing(false)).(
        disk := SetRecord(s.disk, id, RecordOf(s.disk, id).value.(progress := Progress.Fold(h.seen))),
        histories := s.histories[id := h.(saved := |h.seen|)])
    case Finish(id, ending) =>
      var h := FinalHistory(HistoryOf(s, id), ending);
      var disk := if ending.Raised? && ending.torn then Appended(s.disk, id, Torn) else s.disk;
      Moved(s, id, Closing).(
        disk := SetRecord(disk, id, Ended(RecordOf(s.disk, id).value, ending, Progress.Fold(h.seen))),
        histories := s.histories[id := h])
    case ReadHolder(id) => Moved(s, id, Releasing(HolderOf(s.disk.lock)))
    case Unlink(id) =>
      Gone(s, id).(
        disk := if s.flights[id].holder in {Some(id), None} then s.disk.(lock := Absent) else s.disk,
        cancelled := s.cancelled - {id})
    case CheckCancel(id) => s.(checked := s.checked + {id})
    case Cancel(id) => s.(cancelled := s.cancelled + {id}, asked := s.asked + {id}, checked := s.checked - {id})
    case Crash(torn) =>
      s.(mode := Down, flights := map[], cancelled := {}, checked := {},
         disk := if torn.Some? then Appended(s.disk, torn.value, Torn) else s.disk)
    case Boot(todo) => s.(mode := Booting(todo, false))
    case BootSave =>
      var id := s.mode.todo[0];
      s.(mode := Booting(s.mode.todo[1..], true),
         disk := SetRecord(s.disk, id, AsInterrupted(RecordOf(s.disk, id).value)))
    case BootDone =>
      s.(mode := Serving, disk := if s.mode.recovered then s.disk.(lock := Absent) else s.disk)
  }

  ghost predicate Valid(s: State, actions: seq<Action>)
    decreases |actions|
  {
    actions == [] || (Enabled(s, actions[0]) && Valid(Next(s, actions[0]), actions[1..]))
  }

  ghost function After(s: State, actions: seq<Action>): State
    requires Valid(s, actions)
    decreases |actions|
  {
    if actions == [] then s else After(Next(s, actions[0]), actions[1..])
  }

  // ---- the lock ----

  ghost predicate Fresh(s: State) {
    && (forall id :: id in s.flights ==> id < s.clock)
    && (forall id :: id in s.disk.runs ==> id < s.clock)
    && (forall id :: id in s.histories ==> id < s.clock)
    && (!s.mode.Serving? ==> s.flights == map[])
  }

  predicate LockFits(lock: Lock, id: RunId, phase: Phase) {
    match phase
    case Waiting => true
    case Opened => lock == Empty
    case Releasing(holder) => lock == Holds(id) && holder == Some(id)
    case _ => lock == Holds(id)
  }

  /** At most one run is between its acquire and its release. */
  ghost predicate Exclusive(s: State) {
    forall a, b :: a in s.flights && b in s.flights && Holding(s.flights[a]) && Holding(s.flights[b]) ==> a == b
  }

  /** The lock is empty until that run writes its id, and names it from then on. */
  ghost predicate LocksFit(s: State) {
    forall id :: id in s.flights ==> LockFits(s.disk.lock, id, s.flights[id])
  }

  /** A record left unfinished on disk is named by the lock. */
  ghost predicate UnfinishedNamed(d: Disk) {
    forall id :: Unfinished(d, id) ==> d.lock == Holds(id)
  }

  ghost predicate LockOk(s: State) {
    Exclusive(s) && LocksFit(s) && UnfinishedNamed(s.disk)
  }

  /** Recovery only has unfinished runs before it; once it saved one, none is left and the
      lock still names it. */
  ghost predicate BootOk(s: State) {
    s.mode.Booting? ==>
      && Distinct(s.mode.todo)
      && (forall id :: id in s.mode.todo ==> Unfinished(s.disk, id))
      && (s.mode.recovered ==> s.disk.lock.Holds? && forall id :: !Unfinished(s.disk, id))
  }

  // ---- the trace of each run ----

  /** A torn line is the last one; the whole lines are the summaries of the logged events. */
  ghost predicate LogOk(events: seq<Line>, h: History) {
    && h.logged <= |h.seen|
    && (forall i :: 0 <= i < |events| - 1 ==> events[i].Whole?)
    && Readable(events, 0) == Progress.Summaries(h.seen[..h.logged])
  }

  ghost predicate CountsOk(state: RunState, h: History) {
    && h.logged <= |h.seen| <= h.logged + 1
    && h.saved <= |h.seen| <= h.saved + 1
    && (state.Pending? ==> h == NO_HISTORY)
    && (state.Running? || state.Interrupted? ==> h.logged == |h.seen|)
    && (state.Failed? ==> h.saved == |h.seen|)
    && (state.Success? || state.Cancelled? ==> h.logged == h.saved == |h.seen|)
  }

  ghost predicate RecordOk(id: RunId, r: RunRecord, h: History, replay: bool, asked: bool) {
    && r.id == id
    && CountsOk(r.state, h)
    && r.progress == Progress.Fold(h.seen[..h.saved])
    && (r.state.Success? ==> r.progress.recapSeen && r.returnCode == Some(0))
    && (replay && r.state.Cancelled? ==> asked)
  }

  ghost predicate PhaseFits(phase: Phase, dir: Option<RunDir>, h: History) {
    var record := if dir.Some? then dir.value.record else None;
    match phase
    case Waiting | Opened | Locked => dir.None?
    case Created => record.Some? && record.value.state.Pending? && dir.value.events == []
    case Executing(unsaved) =>
      && record.Some? && record.value.state.Running?
      && h.saved == |h.seen| - (if unsaved then 1 else 0)
      && (forall i :: 0 <= i < |dir.value.events| ==> dir.value.events[i].Whole?)
    case Closing | Releasing(_) => record.Some? ==> record.value.state.Finished()
  }

  ghost predicate TraceOk(s: State, id: RunId) {
    var dir, h := DirOf(s.disk, id), HistoryOf(s, id);
    && (dir.None? ==> h == NO_HISTORY)
    && (dir.Some? ==> LogOk(dir.value.events, h))
    && (dir.Some? && dir.value.record.None? ==> h == NO_HISTORY)
    && (dir.Some? && dir.value.record.Some? ==> RecordOk(id, dir.value.record.value, h, s.replay, id in s.asked))
    && (id in s.flights ==> PhaseFits(s.flights[id], dir, h))
  }

  ghost predicate TracesOk(s: State) {
    forall id :: TraceOk(s, id)
  }

  ghost predicate Safe(s: State) {
    Fresh(s) && LockOk(s) && BootOk(s) && TracesOk(s) && s.cancelled <= s.asked
  }
}
