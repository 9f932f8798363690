/** What safety means for a run, from its launch to its last word. */
module RunLifecycle {
  import opened Wrappers
  import opened RunStore
  import opened RunProtocol
  import RunSafety
  import Progress

  /** In every execution from an empty disk: at most one run is between its acquire and its
      release; the lock names it once written; every unfinished record is named by the lock,
      so there is at most one, and a free lock means every record is finished. */
  lemma MutualExclusion(replay: bool, actions: seq<Action>)
    requires Valid(Start(replay), actions)
    ensures var s := After(Start(replay), actions);
      && (forall a, b :: a in s.flights && b in s.flights && Holding(s.flights[a]) && Holding(s.flights[b]) ==> a == b)
      && (forall a :: a in s.flights && Holding(s.flights[a]) ==>
            s.disk.lock == if s.flights[a].Opened? then Empty else Holds(a))
      && (forall id :: Unfinished(s.disk, id) ==> s.disk.lock == Holds(id))
      && (forall id, other :: Unfinished(s.disk, id) && Unfinished(s.disk, other) ==> id == other)
      && (s.disk.lock.Absent? ==> forall id :: !Unfinished(s.disk, id))
  {
    hide Unfinished, TracesOk, Fresh, BootOk, Next, Enabled;
    RunSafety.StartIsSafe(replay);
    RunSafety.RunsKeepSafe(Start(replay), actions);
  }

  /** A release only ever removes the lock its own run wrote: the branch for an unreadable
      or empty lock file is never taken, and the unlink always frees the lock. */
  lemma ReleaseOwnsTheLock(replay: bool, actions: seq<Action>, id: RunId)
    requires Valid(Start(replay), actions)
    requires Enabled(After(Start(replay), actions), Unlink(id))
    ensures var s := After(Start(replay), actions);
      && s.disk.lock == Holds(id)
      && s.flights[id] == Releasing(Some(id))
      && Next(s, Unlink(id)).disk == Released(s.disk, id)
      && Next(s, Unlink(id)).disk.lock == Absent
  {
    hide TracesOk, Fresh, BootOk;
    RunSafety.StartIsSafe(replay);
    RunSafety.RunsKeepSafe(Start(replay), actions);
    assert LocksFit(After(Start(replay), actions));
  }

  // ---- one run's saved states ----

  /** The state a save may replace, and what with. */
  predicate Follows(before: RunState, after: RunState) {
    || after == before
    || (before.Pending? && (after.Running? || after.Interrupted?))
    || (before.Running? && after.Finished())
  }

  ghost predicate Evolves(s: State, t: State, id: RunId) {
    var before, after := RecordOf(s.disk, id), RecordOf(t.disk, id);
    && (before.None? && after.Some? ==> after.value.state.Pending? && after.value.returnCode == None)
    && (before.Some? ==>
          && after.Some?
          && after.value.request == before.value.request
          && Follows(before.value.state, after.value.state)
          && (after.value.returnCode == before.value.returnCode || before.value.state.Running?)
          && (!after.value.state.Finished() ==> after.value.returnCode == before.value.returnCode)
          && (before.value.state.Finished() ==> after == before && EventsOf(t.disk, id) == EventsOf(s.disk, id)))
    && EventsOf(s.disk, id) <= EventsOf(t.disk, id)
  }

  /** A record appears pending, goes to running and then to one terminal state, or from
      pending straight to interrupted; the log only grows; a finished run never changes. */
  lemma StepEvolves(s: State, a: Action, id: RunId)
    requires Safe(s) && Enabled(s, a)
    ensures Evolves(s, Next(s, a), id)
  {
    hide Safe, Enabled, Next;
    if !RunSafety.Touches(s, a, id) {
      RunSafety.RecordUntouched(s, a, id);
    } else {
      TouchedEvolves(s, a, id);
    }
  }

  lemma EndIsFinal()
    ensures forall outcome, progress :: FinalState(outcome, progress).Finished()
  {}

  /** Steps that move a launch or a release on, and leave the records and the logs alone. */
  predicate OnlyMoves(a: Action) {
    a.ChooseId? || a.Open? || a.Refuse? || a.WriteId? || a.WriteFails? || a.Strand? || a.ReadHolder? || a.Unlink?
  }

  lemma MovesKeepRecords(s: State, a: Action)
    requires Enabled(s, a) && OnlyMoves(a)
    ensures Next(s, a).disk.runs == s.disk.runs
  {}

  lemma TouchedEvolves(s: State, a: Action, id: RunId)
    requires Safe(s) && Enabled(s, a) && RunSafety.Touches(s, a, id)
    ensures Evolves(s, Next(s, a), id)
  {
    if OnlyMoves(a) {
      hide Safe, Enabled, Next;
      MovesKeepRecords(s, a);
    } else {
      RecordEvolves(s, a, id);
    }
  }

  lemma RecordEvolves(s: State, a: Action, id: RunId)
    requires Safe(s) && Enabled(s, a) && RunSafety.Touches(s, a, id) && !OnlyMoves(a)
    ensures Evolves(s, Next(s, a), id)
  {
    hide LockOk, Recoverable, TracesOk, LogOk, RecordOk, Progress.Fold, Progress.Summarise, FinalState,
      FinalHistory, HistoryOf;
    RunSafety.TraceAt(s, id);
    EndIsFinal();
    if a.BootSave? {
      assert s.mode.todo[0] in s.mode.todo;
    }
  }

  /** Over any execution, a finished run keeps its record and its log for ever. */
  lemma {:induction false} FinishedForEver(s: State, actions: seq<Action>, id: RunId)
    requires Safe(s) && Valid(s, actions)
    requires RecordOf(s.disk, id).Some? && RecordOf(s.disk, id).value.state.Finished()
    ensures RecordOf(After(s, actions).disk, id) == RecordOf(s.disk, id)
    ensures EventsOf(After(s, actions).disk, id) == EventsOf(s.disk, id)
    decreases |actions|
  {
    hide Safe, Enabled, Next;
    if actions != [] {
      StepEvolves(s, actions[0], id);
      RunSafety.StepKeepsSafe(s, actions[0]);
      FinishedForEver(Next(s, actions[0]), actions[1..], id);
    }
  }

  /** Over any execution, a record never disappears and its log only grows. */
  lemma {:induction false} RecordsAccumulate(s: State, actions: seq<Action>, id: RunId)
    requires Safe(s) && Valid(s, actions)
    ensures RecordOf(s.disk, id).Some? ==> RecordOf(After(s, actions).disk, id).Some?
    ensures EventsOf(s.disk, id) <= EventsOf(After(s, actions).disk, id)
    decreases |actions|
  {
    hide Safe, Enabled, Next;
    if actions != [] {
      StepEvolves(s, actions[0], id);
      RunSafety.StepKeepsSafe(s, actions[0]);
      RecordsAccumulate(Next(s, actions[0]), actions[1..], id);
    }
  }

  // ---- what a run keeps from its start and its end ----

  lemma StepKeepsOrigin(s: State, a: Action, id: RunId)
    requires Safe(s) && Enabled(s, a) && RecordOf(s.disk, id).Some?
    ensures id in Next(s, a).disk.runs && Next(s, a).disk.runs[id].inventory == s.disk.runs[id].inventory
  {
    hide LockOk, BootOk, Fresh, Recoverable, TracesOk, LogOk, RecordOk, Progress.Fold, Progress.Summarise, FinalState,
      FinalHistory, HistoryOf;
    RunSafety.TraceAt(s, id);
    if a.BootSave? {
      assert s.mode.todo[0] in s.mode.todo;
    }
  }

  lemma {:induction false} OriginForEver(s: State, actions: seq<Action>, id: RunId)
    requires Safe(s) && Valid(s, actions) && RecordOf(s.disk, id).Some?
    ensures RecordOf(After(s, actions).disk, id).Some?
    ensures RecordOf(After(s, actions).disk, id).value.request == RecordOf(s.disk, id).value.request
    ensures After(s, actions).disk.runs[id].inventory == s.disk.runs[id].inventory
    decreases |actions|
  {
    hide Safe, Enabled, Next;
    if actions != [] {
      StepEvolves(s, actions[0], id);
      StepKeepsOrigin(s, actions[0], id);
      RunSafety.StepKeepsSafe(s, actions[0]);
      OriginForEver(Next(s, actions[0]), actions[1..], id);
    }
  }

  /** Whatever happens after a run's creation, its record names the playbook, the mode and the
      operator it was launched with, and the inventory beside it is the one frozen then. */
  lemma LaunchedAsAsked(s: State, id: RunId, request: Request, inventory: string, actions: seq<Action>)
    requires Safe(s) && Enabled(s, Create(id, request, inventory))
    requires Valid(Next(s, Create(id, request, inventory)), actions)
    ensures var t := After(Next(s, Create(id, request, inventory)), actions);
      && RecordOf(t.disk, id).Some? && RecordOf(t.disk, id).value.id == id
      && RecordOf(t.disk, id).value.request == request && t.disk.runs[id].inventory == inventory
  {
    var t := Next(s, Create(id, request, inventory));
    hide Safe, TracesOk, Enabled, Next;
    assert RecordOf(t.disk, id) == Some(RunRecord(id, request, Pending, None, Progress.NOTHING))
        && t.disk.runs[id].inventory == inventory by {
      CreatedAsAsked(s, id, request, inventory);
    }
    RunSafety.StepKeepsSafe(s, Create(id, request, inventory));
    OriginForEver(t, actions, id);
    RunSafety.RunsKeepSafe(t, actions);
    KeepsId(After(t, actions), id);
  }

  lemma KeepsId(s: State, id: RunId)
    requires Safe(s) && RecordOf(s.disk, id).Some?
    ensures RecordOf(s.disk, id).value.id == id
  {
    hide LockOk, BootOk, Fresh, TracesOk, LogOk, CountsOk;
    RunSafety.TraceAt(s, id);
  }

  lemma CreatedAsAsked(s: State, id: RunId, request: Request, inventory: string)
    requires Enabled(s, Create(id, request, inventory))
    ensures var t := Next(s, Create(id, request, inventory));
      && RecordOf(t.disk, id) == Some(RunRecord(id, request, Pending, None, Progress.NOTHING))
      && t.disk.runs[id].inventory == inventory
  {}

  /** A run that its adapter ends by returning keeps for ever that adapter's return code, for
      every terminal state, and the progress of every event applied. */
  lemma ReturnedRunKeepsItsCode(s: State, id: RunId, outcome: RunOutcome, actions: seq<Action>)
    requires Safe(s) && Enabled(s, Finish(id, Returned(outcome)))
    requires Valid(Next(s, Finish(id, Returned(outcome))), actions)
    ensures var record := RecordOf(After(Next(s, Finish(id, Returned(outcome))), actions).disk, id);
      && record.Some? && record.value.state.Finished()
      && record.value.returnCode == outcome.returnCode
      && record.value.progress == Progress.Fold(HistoryOf(s, id).seen)
  {
    FinishedAs(s, id, Returned(outcome));
    hide Safe, Enabled, Next, HistoryOf, Progress.Fold;
    RunSafety.StepKeepsSafe(s, Finish(id, Returned(outcome)));
    FinishedForEver(Next(s, Finish(id, Returned(outcome))), actions, id);
  }

  /** A run ended by an exception keeps for ever FAILED, no return code, and the progress of every
      event applied, that of an append that raised included. */
  lemma RaisedRunFails(s: State, id: RunId, unlogged: Option<Progress.Event>, torn: bool, actions: seq<Action>)
    requires Safe(s) && Enabled(s, Finish(id, Raised(unlogged, torn)))
    requires Valid(Next(s, Finish(id, Raised(unlogged, torn))), actions)
    ensures var record := RecordOf(After(Next(s, Finish(id, Raised(unlogged, torn))), actions).disk, id);
            var applied := HistoryOf(s, id).seen + if unlogged.Some? then [unlogged.value] else [];
      && record.Some? && record.value.state.Failed?
      && record.value.returnCode == RecordOf(s.disk, id).value.returnCode
      && record.value.progress == Progress.Fold(applied)
  {
    FinishedAs(s, id, Raised(unlogged, torn));
    hide Safe, Enabled, Next, HistoryOf, Progress.Fold;
    RunSafety.StepKeepsSafe(s, Finish(id, Raised(unlogged, torn)));
    FinishedForEver(Next(s, Finish(id, Raised(unlogged, torn))), actions, id);
  }

  lemma FinishedAs(s: State, id: RunId, ending: Ending)
    requires Enabled(s, Finish(id, ending))
    ensures RecordOf(s.disk, id).Some?
    ensures var record := RecordOf(Next(s, Finish(id, ending)).disk, id);
            var seen := HistoryOf(s, id).seen;
      && record.Some? && record.value.state.Finished()
      && match ending
         case Returned(outcome) =>
           record.value.returnCode == outcome.returnCode && record.value.progress == Progress.Fold(seen)
         case Raised(unlogged, _) =>
           && record.value.state.Failed?
           && record.value.returnCode == RecordOf(s.disk, id).value.returnCode
           && record.value.progress == Progress.Fold(seen + if unlogged.Some? then [unlogged.value] else [])
  {
    hide Progress.Fold, FinalState, HistoryOf;
    EndIsFinal();
    assert HistoryOf(s, id).seen + [] == HistoryOf(s, id).seen;
  }

  // ---- what a terminal state tells ----

  /** An adapter that returns leaves INTERRUPTED exactly when the run was not cancelled, had
      no error and saw no recap, and SUCCESS exactly when moreover it saw one and the return
      code is 0. */
  lemma EndOfRun(outcome: RunOutcome, events: seq<Progress.Event>)
    ensures FinalState(outcome, Progress.Fold(events)) == Interrupted
       <==> !outcome.cancelled && !Progress.Truthy(outcome.error) && !Progress.HasRecap(events)
    ensures FinalState(outcome, Progress.Fold(events)) == Success
       <==> !outcome.cancelled && !Progress.Truthy(outcome.error) && Progress.HasRecap(events)
            && outcome.returnCode == Some(0)
    ensures FinalState(outcome, Progress.Fold(events)) == Cancelled <==> outcome.cancelled
    ensures FinalState(outcome, Progress.Fold(events)).Finished()
  {
    Progress.RecapFlag(events);
  }

  /** In every execution, a record says SUCCESS only when the events applied include a recap
      and the return code is 0, and with the replaying adapter CANCELLED only when a cancel
      was asked for. */
  lemma TerminalStates(replay: bool, actions: seq<Action>, id: RunId)
    requires Valid(Start(replay), actions)
    requires RecordOf(After(Start(replay), actions).disk, id).Some?
    ensures var s := After(Start(replay), actions);
            var r := RecordOf(s.disk, id).value;
      && r.id == id
      && (r.state.Success? ==> Progress.HasRecap(HistoryOf(s, id).seen) && r.returnCode == Some(0))
      && (replay && r.state.Cancelled? ==> id in s.asked)
  {
    hide Fresh, LockOk, BootOk, TracesOk, LogOk, Next, Enabled;
    RunSafety.StartIsSafe(replay);
    RunSafety.RunsKeepSafe(Start(replay), actions);
    var s := After(Start(replay), actions);
    KeepsReplay(Start(replay), actions);
    RunSafety.TraceAt(s, id);
    var h := HistoryOf(s, id);
    assert h.saved == |h.seen| ==> h.seen[..h.saved] == h.seen;
    Progress.RecapFlag(h.seen);
  }

  lemma StepKeepsReplay(s: State, a: Action)
    requires Enabled(s, a)
    ensures Next(s, a).replay == s.replay
  {
    hide Enabled, Logged, SetRecord, Appended, Recorded, Ended, FinalHistory, HistoryOf, AsInterrupted, Progress.Fold;
  }

  lemma {:induction false} KeepsReplay(s: State, actions: seq<Action>)
    requires Valid(s, actions)
    ensures After(s, actions).replay == s.replay
    decreases |actions|
  {
    hide Enabled, Next;
    if actions != [] {
      StepKeepsReplay(s, actions[0]);
      KeepsReplay(Next(s, actions[0]), actions[1..]);
    }
  }

  // ---- the log against the record ----

  /** The progress a client of the stream rebuilds from the whole lines of a log. */
  function Rebuilt(d: Disk, id: RunId): Progress.Snapshot {
    Progress.Replay(Readable(EventsOf(d, id), 0))
  }

  /** Everything applied but the last event. */
  function AllButLast(seen: seq<Progress.Event>): seq<Progress.Event> {
    if seen == [] then [] else seen[..|seen| - 1]
  }

  /** What the whole lines of a log tell, against the record: exactly the same for a run that
      ended SUCCESS or CANCELLED; the log holds every applied event of a run still running or
      interrupted, the record every one of a failed run, and the other side is at most the
      last event behind. */
  predicate Tells(rebuilt: Progress.Snapshot, r: RunRecord, seen: seq<Progress.Event>) {
    && (r.state.Pending? ==> seen == [])
    && (r.state.Pending? || r.state.Success? || r.state.Cancelled? ==> rebuilt == r.progress == Progress.Fold(seen))
    && (r.state.Running? || r.state.Interrupted? ==>
          rebuilt == Progress.Fold(seen) && r.progress in {Progress.Fold(seen), Progress.Fold(AllButLast(seen))})
    && (r.state.Failed? ==>
          r.progress == Progress.Fold(seen) && rebuilt in {Progress.Fold(seen), Progress.Fold(AllButLast(seen))})
  }

  lemma SafeLogReplays(s: State, id: RunId)
    requires Safe(s) && RecordOf(s.disk, id).Some?
    ensures Tells(Rebuilt(s.disk, id), RecordOf(s.disk, id).value, HistoryOf(s, id).seen)
  {
    hide Fresh, LockOk, BootOk, TracesOk, Next, Enabled, Progress.Fold, Progress.Replay, Progress.Summaries, Readable;
    RunSafety.TraceAt(s, id);
    var h := HistoryOf(s, id);
    Progress.ReplayRebuildsProgress(h.seen[..h.logged]);
    assert h.seen[..|h.seen|] == h.seen;
  }

  /** In every reachable state the log on disk and the record tell the same events. */
  lemma LogReplaysToRecord(replay: bool, actions: seq<Action>, id: RunId)
    requires Valid(Start(replay), actions)
    requires RecordOf(After(Start(replay), actions).disk, id).Some?
    ensures var s := After(Start(replay), actions);
            Tells(Rebuilt(s.disk, id), RecordOf(s.disk, id).value, HistoryOf(s, id).seen)
  {
    hide Safe, Tells, Rebuilt, Next, Enabled;
    RunSafety.StartIsSafe(replay);
    RunSafety.RunsKeepSafe(Start(replay), actions);
    SafeLogReplays(After(Start(replay), actions), id);
  }
}
