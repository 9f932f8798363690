/** Launching, executing and cancelling a run, in the order one thread does it. */
module RunService {
  import opened Wrappers
  import opened RunStore
  import RunProtocol
  import RunLifecycle
  import Progress

  /** What raises in a launch: nothing, or the first of its steps to fail; after a creation that
      raised, the unlink of the lock may raise too. */
  datatype LaunchFault =
    | NoFault | TakingLock | WritingId | Creating(directoryMade: bool, unlinked: bool) | SavingRunning | StartingThread

  datatype LaunchError = RunInProgress(holder: Option<RunId>) | LaunchRaised

  datatype CancelError = UnknownRun | RunFinished(state: RunState)

  function NewRecord(id: RunId, request: Request): RunRecord {
    RunRecord(id, request, Pending, None, Progress.NOTHING)
  }

  function Started(id: RunId, request: Request): RunRecord {
    NewRecord(id, request).(state := Running)
  }

  /** The disk once a launch went through: the lock names the run, its record says RUNNING. */
  function Launched(d: Disk, id: RunId, request: Request, inventory: string): Disk {
    Disk(Holds(id), d.runs[id := RunDir(Some(Started(id, request)), EventsOf(d, id), inventory)])
  }

  /** The disk after a launch that found the lock free. Only a creation that raises is undone;
      later failures leave the lock, and from the record on, an unfinished record. */
  function AfterLaunch(d: Disk, id: RunId, request: Request, inventory: string, fault: LaunchFault): Disk {
    match fault
    case NoFault | StartingThread => Launched(d, id, request, inventory)
    case TakingLock => d
    case WritingId => d.(lock := Empty)
    case Creating(directoryMade, unlinked) =>
      Uncreated(d.(lock := if unlinked then Absent else Holds(id)), id, directoryMade)
    case SavingRunning => Recorded(d.(lock := Holds(id)), NewRecord(id, request), inventory)
  }

  function AsLines(summaries: seq<Progress.Summary>): (lines: seq<Line>)
    ensures |lines| == |summaries|
  {
    seq(|summaries|, i requires 0 <= i < |summaries| => Whole(summaries[i]))
  }

  /** A run's directory once some events were handled and the record saved. */
  function Handled(dir: RunDir, record: RunRecord, events: seq<Progress.Event>): RunDir {
    RunDir(Some(record), dir.events + AsLines(Progress.Summaries(events)), dir.inventory)
  }

  // ---- the replaying adapter ----

  /** What raises while a run executes: the adapter before its first event or after its last,
      or the handler of the event at a place, in its append or in its save. */
  datatype RunFault = Smooth | Preparing | Logging(at: nat, torn: bool) | Saving(at: nat) | Output

  /** What raises once the run is over: the terminal save, or the unlink of the lock. */
  datatype EndFault = Closes | TerminalSave | Unlinking

  /** How many looks at the cancelled set pass before the first request arrives; `arrivals[i]`
      says that one arrives just before the i-th look. */
  function QuietFor(events: seq<Progress.Event>, arrivals: seq<bool>): (n: nat)
    requires |arrivals| >= |events|
    ensures n <= |events|
    ensures forall i :: 0 <= i < n ==> !arrivals[i]
    ensures n < |events| ==> arrivals[n]
  {
    if events == [] || arrivals[0] then 0 else 1 + QuietFor(events[1..], arrivals[1..])
  }

  /** How many events are handed over: the adapter looks before each whether the run is in the
      cancelled set, and `asked` says that it was there from the start. */
  function HandedOver(events: seq<Progress.Event>, asked: bool, arrivals: seq<bool>): (n: nat)
    requires |arrivals| >= |events|
    ensures n <= |events|
  {
    if asked then 0 else QuietFor(events, arrivals)
  }

  /** How a run's execution ends, and how many events the log and the record hold by then. */
  datatype Conclusion = Conclusion(logged: nat, saved: nat, ending: RunProtocol.Ending) {
    predicate Torn() {
      ending.Raised? && ending.torn
    }
  }

  const CANCELLED := RunProtocol.Returned(RunProtocol.RunOutcome(None, true, None))
  const RAISED := RunProtocol.Raised(None, false)

  /** Whether the fault strikes before the adapter has looked `n` times and gone on. */
  predicate Strikes(fault: RunFault, events: seq<Progress.Event>, n: nat)
    requires n <= |events|
  {
    match fault
    case Smooth => false
    case Preparing => true
    case Logging(at, _) => at < n && Progress.Summarise(events[at]).Some?
    case Saving(at) => at < n
    case Output => n == |events|
  }

  function Concluded(events: seq<Progress.Event>, asked: bool, arrivals: seq<bool>, returnCode: int,
                     fault: RunFault): (c: Conclusion)
    requires |arrivals| >= |events|
    ensures c.saved <= c.logged <= |events|
  {
    var n := HandedOver(events, asked, arrivals);
    if Strikes(fault, events, n) then
      if fault.Logging? then Conclusion(fault.at, fault.at, RunProtocol.Raised(Some(events[fault.at]), fault.torn))
      else if fault.Saving? then Conclusion(fault.at + 1, fault.at, RAISED)
      else if fault.Output? then Conclusion(n, n, RAISED)
      else Conclusion(0, 0, RAISED)
    else if n < |events| then Conclusion(n, n, CANCELLED)
    else Conclusion(n, n, RunProtocol.Returned(RunProtocol.RunOutcome(Some(returnCode), false, None)))
  }

  /** The events folded into the progress: those logged, and one whose append raised. */
  function Applied(events: seq<Progress.Event>, c: Conclusion): seq<Progress.Event>
    requires c.logged <= |events|
  {
    events[..c.logged] +
    if c.ending.Raised? && c.ending.unlogged.Some? then [c.ending.unlogged.value] else []
  }

  /** The record a run ends with. */
  function FinalRecord(record: RunRecord, events: seq<Progress.Event>, c: Conclusion): RunRecord
    requires c.logged <= |events|
  {
    RunProtocol.Ended(record, c.ending, Progress.Fold(Applied(events, c)))
  }

  /** The record on disk before the terminal save. */
  function LastRecord(record: RunRecord, events: seq<Progress.Event>, c: Conclusion): RunRecord
    requires c.saved <= |events|
  {
    record.(progress := Progress.Fold(events[..c.saved]))
  }

  /** The disk after an execution: only one in which nothing raises at the end releases the lock,
      and only one that gets to its terminal save has a finished record. */
  function AfterRun(d: Disk, record: RunRecord, events: seq<Progress.Event>, c: Conclusion, end: EndFault): Disk
    requires record.id in d.runs && c.saved <= c.logged <= |events|
  {
    var last := if end.TerminalSave? then LastRecord(record, events, c) else FinalRecord(record, events, c);
    var after := d.(runs := d.runs[record.id := FinalDir(d.runs[record.id], last, events, c)]);
    if end.Closes? then Released(after, record.id) else after
  }

  /** The run's directory at the end, under some record. */
  function FinalDir(dir: RunDir, record: RunRecord, events: seq<Progress.Event>, c: Conclusion): RunDir
    requires c.logged <= |events|
  {
    var handled := Handled(dir, record, events[..c.logged]);
    if c.Torn() then handled.(events := handled.events + [Torn]) else handled
  }

  datatype Handling = Handles | AppendRaises(torn: bool) | SaveRaises

  /** What happens to the handler of the event at a place. */
  function HandlingOf(fault: RunFault, at: nat): Handling {
    match fault
    case Logging(n, torn) => if n == at then AppendRaises(torn) else Handles
    case Saving(n) => if n == at then SaveRaises else Handles
    case _ => Handles
  }

  /** A run thread: its record and the progress it mutates. */
  class RunThread {
    const store: RunStore
    var record: RunRecord
    const progress: Progress.RunProgress

    constructor (store: RunStore, record: RunRecord)
      ensures this.store == store && this.record == record
      ensures fresh(progress) && progress.Value() == Progress.NOTHING
    {
      this.store, this.record := store, record;
      progress := new Progress.RunProgress();
    }

    method OnEvent(event: Progress.Event, handling: Handling) returns (raised: bool)
      requires record.id in store.runs
      modifies this, store, progress
      ensures raised <==> handling.SaveRaises? || (handling.AppendRaises? && Progress.Summarise(event).Some?)
      ensures progress.Value() == Progress.Apply(old(progress.Value()), event)
      ensures !raised ==> record == old(record).(progress := progress.Value())
      ensures !raised ==> store.Value() == Saved(RunProtocol.Logged(old(store.Value()), record.id, event), record)
      ensures raised ==> record == old(record)
      ensures raised ==>
                store.Value() == (if handling.SaveRaises? then RunProtocol.Logged(old(store.Value()), record.id, event)
                                  else if handling.torn then Appended(old(store.Value()), record.id, Torn)
                                  else old(store.Value()))
    {
      hide Progress.Apply;
      progress.ApplyEvent(event);
      var summary := Progress.Summarise(event);
      if summary.Some? {
        if handling.AppendRaises? {
          store.FailToAppend(record.id, handling.torn);
          return true;
        }
        store.AppendEvent(record.id, summary.value);
      }
      if handling.SaveRaises? {
        return true;
      }
      record := record.(progress := progress.Value());
      store.Save(record);
      return false;
    }
  }

  class FakeRunAdapter {
    const events: seq<Progress.Event>
    const returnCode: int
    var requests: seq<RunId>

    constructor (events: seq<Progress.Event>, returnCode: int)
      ensures this.events == events && this.returnCode == returnCode && requests == []
    {
      this.events, this.returnCode, requests := events, returnCode, [];
    }

    /** Replays the events to the thread of a run the service has just started. The answer is
        `RAISED` where Python raises. */
    method Execute(run: RunThread, service: RunService, arrivals: seq<bool>, fault: RunFault)
      returns (ending: RunProtocol.Ending)
      requires |arrivals| >= |events| && run.store == service.store
      requires run.record.state.Running? && RecordOf(run.store.Value(), run.record.id) == Some(run.record)
      requires run.progress.Value() == run.record.progress == Progress.NOTHING
      modifies `requests, run, run.store, run.progress, service`cancelled
      ensures requests == old(requests) + [old(run.record.id)]
      ensures var id := old(run.record.id);
              var c := Concluded(events, id in old(service.cancelled), arrivals, returnCode, fault);
        && ending.Returned? == c.ending.Returned?
        && (ending.Returned? ==> ending == c.ending)
        && run.progress.Value() == Progress.Fold(Applied(events, c))
        && run.record == old(run.record).(progress := run.record.progress)
        && run.store.lock == old(run.store.lock)
        && run.store.runs == old(run.store.runs)[
             id := FinalDir(old(run.store.runs)[id], LastRecord(old(run.record), events, c), events, c)]
        && (ending == CANCELLED ==> events != [] && id in service.cancelled)
        && service.cancelled == old(service.cancelled) + if ending == CANCELLED then {id} else {}
    {
      hide Concluded, GoneOn, Applied, HandlingOf, Progress.Fold, Progress.Apply, Progress.Summaries;
      requests := requests + [run.record.id];
      ghost var id, before, asked := run.record.id, run.store.runs, run.record.id in service.cancelled;
      NothingHandled(before[id]);
      NoEvents();
      assert events[..0] == [];
      GoneOnStarts(events, asked, arrivals, fault, returnCode);
      if fault.Preparing? {
        return RAISED;
      }
      for i := 0 to |events|
        invariant run.progress.Value() == run.record.progress == Progress.Fold(events[..i])
        invariant run.record == old(run.record).(progress := run.record.progress)
        invariant run.store.lock == old(run.store.lock)
        invariant run.store.runs == before[id := Handled(before[id], run.record, events[..i])]
        invariant GoneOn(events, asked, arrivals, fault, i)
        invariant asked <==> id in service.cancelled
        invariant service.cancelled == old(service.cancelled)
        invariant requests == old(requests) + [id]
      {
        if arrivals[i] {
          var _ := service.Cancel(run.record.id);
        }
        if run.record.id in service.cancelled {
          GoneOnStops(events, asked, arrivals, returnCode, fault, i);
          return CANCELLED;
        }
        GoneOnSteps(events, asked, arrivals, returnCode, fault, i);
        ghost var half := run.store.Value();
        FoldOneMore(events, i);
        OneMoreLine(before[id], half, id, events[..i], events[i], run.record);
        var raised := run.OnEvent(events[i], HandlingOf(fault, i));
        OneMoreLine(before[id], half, id, events[..i], events[i], run.record);
        if raised {
          return RAISED;
        }
      }
      GoneOnEnds(events, asked, arrivals, returnCode, fault);
      assert events[..|events|] == events;
      if fault.Output? {
        return RAISED;
      }
      return RunProtocol.Returned(RunProtocol.RunOutcome(Some(returnCode), false, None));
    }
  }

  // ---- the adapter's loop ----

  /** The loop reached its i-th look: nothing raised and no request arrived before. */
  ghost predicate GoneOn(events: seq<Progress.Event>, asked: bool, arrivals: seq<bool>, fault: RunFault, i: nat)
    requires |arrivals| >= |events| >= i
  {
    && !fault.Preparing?
    && (i > 0 ==> !asked)
    && (forall k :: 0 <= k < i ==> !arrivals[k])
    && (!fault.Output? ==> !Strikes(fault, events, i))
  }

  lemma GoneOnStarts(events: seq<Progress.Event>, asked: bool, arrivals: seq<bool>, fault: RunFault, returnCode: int)
    requires |arrivals| >= |events|
    ensures !fault.Preparing? ==> GoneOn(events, asked, arrivals, fault, 0)
    ensures fault.Preparing? ==>
              var c := Concluded(events, asked, arrivals, returnCode, fault);
              c == Conclusion(0, 0, RAISED) && Applied(events, c) == []
  {}

  lemma GoneOnStops(events: seq<Progress.Event>, asked: bool, arrivals: seq<bool>, returnCode: int, fault: RunFault,
                    i: nat)
    requires |arrivals| >= |events| > i && GoneOn(events, asked, arrivals, fault, i) && (asked || arrivals[i])
    ensures var c := Concluded(events, asked, arrivals, returnCode, fault);
            c == Conclusion(i, i, CANCELLED) && Applied(events, c) == events[..i]
  {
    hide QuietFor;
    if !asked {
      QuietForIs(events, arrivals, i);
    }
  }

  /** Past a look, the handler of the event raises and ends the run, or the loop goes on. */
  lemma GoneOnSteps(events: seq<Progress.Event>, asked: bool, arrivals: seq<bool>, returnCode: int, fault: RunFault,
                    i: nat)
    requires |arrivals| >= |events| > i && GoneOn(events, asked, arrivals, fault, i) && !asked && !arrivals[i]
    ensures var c := Concluded(events, asked, arrivals, returnCode, fault);
      match HandlingOf(fault, i)
      case Handles => GoneOn(events, asked, arrivals, fault, i + 1)
      case AppendRaises(torn) =>
        if Progress.Summarise(events[i]).None? then GoneOn(events, asked, arrivals, fault, i + 1)
        else c == Conclusion(i, i, RunProtocol.Raised(Some(events[i]), torn)) && Applied(events, c) == events[..i + 1]
      case SaveRaises => c == Conclusion(i + 1, i, RAISED) && Applied(events, c) == events[..i + 1]
  {
    hide QuietFor, Progress.Summarise;
    QuietPast(events, arrivals, i);
  }

  lemma GoneOnEnds(events: seq<Progress.Event>, asked: bool, arrivals: seq<bool>, returnCode: int, fault: RunFault)
    requires |arrivals| >= |events| && GoneOn(events, asked, arrivals, fault, |events|)
    ensures var c := Concluded(events, asked, arrivals, returnCode, fault);
      && c.logged == c.saved == |events| && Applied(events, c) == events
      && c.ending == if fault.Output? then RAISED
                     else RunProtocol.Returned(RunProtocol.RunOutcome(Some(returnCode), false, None))
  {
    hide QuietFor, Progress.Summarise;
    QuietForIs(events, arrivals, |events|);
  }

  lemma FoldOneMore(events: seq<Progress.Event>, i: nat)
    requires i < |events|
    ensures Progress.Fold(events[..i + 1]) == Progress.Apply(Progress.Fold(events[..i]), events[i])
    ensures events[..i] + [events[i]] == events[..i + 1]
  {
    hide Progress.Apply;
    assert events[..i + 1][..i] == events[..i];
  }

  class RunService {
    const store: RunStore
    var cancelled: set<RunId>

    constructor (store: RunStore)
      ensures this.store == store && cancelled == {}
    {
      this.store, cancelled := store, {};
    }

    /** The lock, the record, then RUNNING, then the thread. */
    method Launch(id: RunId, request: Request, inventory: string, fault: LaunchFault)
      returns (r: Result<RunRecord, LaunchError>)
      modifies store
      ensures !old(store.lock).Absent? ==>
                r == Err(RunInProgress(HolderOf(old(store.lock)))) && store.Value() == old(store.Value())
      ensures old(store.lock).Absent? ==>
                && r == (if fault.NoFault? then Ok(Started(id, request)) else Err(LaunchRaised))
                && store.Value() == AfterLaunch(old(store.Value()), id, request, inventory, fault)
      ensures r.Ok? ==>
                && r.value == RunRecord(id, request, Running, None, Progress.NOTHING)
                && store.lock == Holds(id) && RecordOf(store.Value(), id) == Some(r.value)
                && store.runs[id].inventory == inventory
    {
      if fault.TakingLock? && store.lock.Absent? {
        return Err(LaunchRaised);
      }
      var acquired := store.Acquire(id, !fault.WritingId?);
      if acquired.Err? {
        return Err(if acquired.error.RunLocked? then RunInProgress(acquired.error.holder) else LaunchRaised);
      }
      if fault.Creating? {
        store.FailToCreate(id, fault.directoryMade);
        if fault.unlinked {
          store.Release(id);
        }
        return Err(LaunchRaised);
      }
      var record := NewRecord(id, request);
      store.Create(record, inventory);
      record := record.(state := Running);
      if fault.SavingRunning? {
        return Err(LaunchRaised);
      }
      store.Save(record);
      if fault.StartingThread? {
        return Err(LaunchRaised);
      }
      return Ok(record);
    }

    /** Best effort: only an unfinished run can be asked to stop. */
    method Cancel(id: RunId) returns (r: Result<RunRecord, CancelError>)
      modifies `cancelled
      ensures r.Ok? <==> Unfinished(store.Value(), id)
      ensures r.Ok? ==> Some(r.value) == RecordOf(store.Value(), id) && cancelled == old(cancelled) + {id}
      ensures r.Err? ==> cancelled == old(cancelled)
      ensures r == Err(UnknownRun) <==> RecordOf(store.Value(), id) == None
    {
      var record := store.Load(id);
      if record.None? {
        return Err(UnknownRun);
      }
      if record.value.state.Finished() {
        return Err(RunFinished(record.value.state));
      }
      cancelled := cancelled + {id};
      return Ok(record.value);
    }

    /** The thread of a run just launched. Whatever raises on the way, the record is saved with
        what was applied, the lock released and the cancel request forgotten, unless that save
        or the unlink raises: then the lock stays, and so does a cancel request. */
    method Execute(record: RunRecord, adapter: FakeRunAdapter, arrivals: seq<bool>, fault: RunFault, end: EndFault)
      requires |arrivals| >= |adapter.events|
      requires record.state.Running? && record.progress == Progress.NOTHING
      requires RecordOf(store.Value(), record.id) == Some(record)
      modifies `cancelled, store, adapter`requests
      ensures var c := Concluded(adapter.events, record.id in old(cancelled), arrivals, adapter.returnCode, fault);
        && store.Value() == AfterRun(old(store.Value()), record, adapter.events, c, end)
        && cancelled == (if end.Closes? then old(cancelled) - {record.id}
                         else old(cancelled) + if c.ending == CANCELLED then {record.id} else {})
    {
      hide Concluded, Progress.Fold, Applied, FinalDir, Progress.Summaries;
      ghost var dir := store.runs[record.id];
      SameDirUnder(dir, adapter.events);
      var run := new RunThread(store, record);
      var ending := adapter.Execute(run, this, arrivals, fault);
      var final := RunProtocol.Ended(run.record, ending, run.progress.Value());
      if end.TerminalSave? {
        return;
      }
      store.Save(final);
      if end.Unlinking? {
        return;
      }
      store.Release(record.id);
      cancelled := cancelled - {record.id};
    }
  }

  lemma SameDirUnder(dir: RunDir, events: seq<Progress.Event>)
    ensures forall c: Conclusion, last, final :: c.logged <= |events| ==>
              FinalDir(dir, last, events, c).(record := Some(final)) == FinalDir(dir, final, events, c)
  {
    hide Progress.Summaries;
  }

  lemma {:induction false} QuietForIs(events: seq<Progress.Event>, arrivals: seq<bool>, n: nat)
    requires |arrivals| >= |events| && n <= |events|
    requires forall k :: 0 <= k < n ==> !arrivals[k]
    requires n < |events| ==> arrivals[n]
    ensures QuietFor(events, arrivals) == n
  {
    if n > 0 {
      QuietForIs(events[1..], arrivals[1..], n - 1);
    }
  }

  lemma QuietPast(events: seq<Progress.Event>, arrivals: seq<bool>, i: nat)
    requires |arrivals| >= |events| && i < |events|
    requires forall k :: 0 <= k <= i ==> !arrivals[k]
    ensures QuietFor(events, arrivals) > i
  {
    hide QuietFor;
    var n := QuietFor(events, arrivals);
    assert n < |events| ==> arrivals[n];
  }

  lemma NoEvents()
    ensures Progress.Fold([]) == Progress.NOTHING && Progress.Summaries([]) == []
  {}

  lemma NothingHandled(dir: RunDir)
    ensures forall record :: Handled(dir, record, []) == dir.(record := Some(record))
  {
    assert AsLines([]) == [];
  }

  /** Handling one more event adds its line and saves the record. */
  lemma OneMoreLine(dir: RunDir, d: Disk, id: RunId, seen: seq<Progress.Event>, event: Progress.Event,
                    record: RunRecord)
    requires id in d.runs && record.id == id
    requires d.runs[id].events == dir.events + AsLines(Progress.Summaries(seen))
    requires d.runs[id].inventory == dir.inventory
    ensures RunProtocol.Logged(d, id, event).runs[id].events == dir.events + AsLines(Progress.Summaries(seen + [event]))
    ensures Saved(RunProtocol.Logged(d, id, event), record) ==
              d.(runs := d.runs[id := Handled(dir, record, seen + [event])])
  {
    assert (seen + [event])[..|seen|] == seen;
    var before, summary := Progress.Summaries(seen), Progress.Summarise(event);
    if summary.Some? {
      assert AsLines(before + [summary.value]) == AsLines(before) + [Whole(summary.value)];
      assert dir.events + AsLines(before) + [Whole(summary.value)] == dir.events + AsLines(before + [summary.value]);
    } else {
      assert Progress.Summaries(seen + [event]) == before;
    }
  }

  /** Under the replaying adapter a run ends CANCELLED exactly when it was asked to stop before
      one of its events and nothing raised before that; FAILED when something raised; otherwise
      by its recap and its return code. The adapter's code is kept whatever the state, and the
      progress is that of all events, or of those before the first request. */
  lemma ReplayedEnd(record: RunRecord, events: seq<Progress.Event>, asked: bool, arrivals: seq<bool>,
                    returnCode: int, fault: RunFault)
    requires |arrivals| >= |events|
    ensures var final := FinalRecord(record, events, Concluded(events, asked, arrivals, returnCode, fault));
            var struck := Strikes(fault, events, HandedOver(events, asked, arrivals));
            var stopped := events != [] && (asked || exists i :: 0 <= i < |events| && arrivals[i]);
      && (final.state == Cancelled <==> !struck && stopped)
      && (final.state == Interrupted <==> !struck && !stopped && !Progress.HasRecap(events))
      && (final.state == Success <==> !struck && !stopped && Progress.HasRecap(events) && returnCode == 0)
      && (final.state == Failed <==> struck || (!stopped && Progress.HasRecap(events) && returnCode != 0))
      && (struck && fault.Output? ==> !stopped)
      && final.returnCode == (if struck then record.returnCode else if stopped then None else Some(returnCode))
      && (!struck && !stopped ==> final.progress == Progress.Fold(events))
      && (!struck && stopped ==> exists n ::
            && 0 <= n < |events| && (asked || arrivals[n]) && (n > 0 ==> !asked)
            && (forall i :: 0 <= i < n ==> !arrivals[i])
            && final.progress == Progress.Fold(events[..n]))
      && final.id == record.id && final.request == record.request
  {
    hide QuietFor, Progress.Fold, Progress.Summarise;
    var n := HandedOver(events, asked, arrivals);
    var c := Concluded(events, asked, arrivals, returnCode, fault);
    var quiet := QuietFor(events, arrivals);
    assert quiet < |events| ==> arrivals[quiet];
    if c.ending.Returned? {
      RunLifecycle.EndOfRun(c.ending.outcome, Applied(events, c));
    }
    assert n == |events| && c.ending.Returned? ==> Applied(events, c) == events;
    assert c.ending.Returned? ==> Applied(events, c) == events[..n];
  }
}
