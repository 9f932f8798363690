/** The launch and the thread of the service, run without interference, are an execution of
    the protocol. */
module RunRefinement {
  import opened Wrappers
  import opened RunStore
  import opened RunProtocol
  import opened RunRecovery
  import RunService
  import Progress

  ghost predicate Reaches(s: State, t: State) {
    exists actions :: Valid(s, actions) && After(s, actions) == t
  }

  lemma {:induction false} ValidAppend(s: State, actions: seq<Action>, last: Action)
    requires Valid(s, actions) && Enabled(After(s, actions), last)
    ensures Valid(s, actions + [last]) && After(s, actions + [last]) == Next(After(s, actions), last)
    decreases |actions|
  {
    hide Enabled, Next;
    if actions == [] {
      FirstStep(s, last, []);
      assert [] + [last] == [last] + [];
    } else {
      var rest := actions[1..];
      ValidAppend(Next(s, actions[0]), rest, last);
      FirstStep(s, actions[0], rest + [last]);
      assert actions + [last] == [actions[0]] + (rest + [last]);
    }
  }

  lemma ReachStep(s: State, t: State, a: Action)
    requires Reaches(s, t) && Enabled(t, a)
    ensures Reaches(s, Next(t, a))
  {
    hide Enabled, Next;
    var actions :| Valid(s, actions) && After(s, actions) == t;
    ValidAppend(s, actions, a);
    assert Valid(s, actions + [a]) && After(s, actions + [a]) == Next(t, a);
  }

  lemma ReachesItself(s: State)
    ensures Reaches(s, s)
  {
    assert Valid(s, []) && After(s, []) == s;
  }

  /** Serving, with a free lock, and a next id nobody used. */
  ghost predicate Idle(s: State) {
    && s.mode.Serving? && s.disk.lock.Absent?
    && s.clock !in s.flights && s.clock !in s.disk.runs && s.clock !in s.histories && s.clock !in s.cancelled
  }

  lemma TakeLock(s0: State, s: State, id: RunId) returns (t: State)
    requires Reaches(s0, s) && At(s, id, Waiting) && s.disk.lock.Absent?
    ensures Reaches(s0, t)
    ensures t == s.(flights := s.flights[id := Locked], disk := s.disk.(lock := Holds(id)))
  {
    hide Reaches;
    ReachStep(s0, s, Open(id));
    t := Next(s, Open(id));
    ReachStep(s0, t, WriteId(id));
    t := Next(t, WriteId(id));
  }

  lemma LaunchHalf(s0: State, s: State, request: Request, inventory: string) returns (t: State)
    requires Reaches(s0, s) && Idle(s)
    ensures Reaches(s0, t)
    ensures t == s.(clock := s.clock + 1, flights := s.flights[s.clock := Executing(false)],
                    disk := RunService.Launched(s.disk, s.clock, request, inventory))
  {
    hide Reaches;
    var n := s.clock;
    ReachStep(s0, s, ChooseId);
    t := Next(s, ChooseId);
    t := TakeLock(s0, t, n);
    ReachStep(s0, t, Create(n, request, inventory));
    t := Next(t, Create(n, request, inventory));
    ReachStep(s0, t, SaveRunning(n));
    t := Next(t, SaveRunning(n));
  }

  /** A run executing with nothing handled yet. */
  ghost predicate JustStarted(s: State, id: RunId) {
    && At(s, id, Executing(false)) && HistoryOf(s, id) == NO_HISTORY
    && RecordOf(s.disk, id).value.progress == Progress.NOTHING && RecordOf(s.disk, id).value.id == id
  }

  function AfterEvents(d: Disk, id: RunId, events: seq<Progress.Event>): Disk
    requires id in d.runs && d.runs[id].record.Some?
  {
    var dir := d.runs[id];
    d.(runs := d.runs[id := RunService.Handled(dir, dir.record.value.(progress := Progress.Fold(events)), events)])
  }

  lemma EventStep(s0: State, s: State, id: RunId, event: Progress.Event) returns (t: State)
    requires Reaches(s0, s) && At(s, id, Executing(false))
    ensures Reaches(s0, t)
    ensures var h := HistoryOf(s, id);
            var record := RecordOf(s.disk, id).value.(progress := Progress.Fold(h.seen + [event]));
            t == s.(histories := s.histories[id := History(h.seen + [event], |h.seen| + 1, |h.seen| + 1)],
                    disk := SetRecord(Logged(s.disk, id, event), id, record))
  {
    hide Reaches, Progress.Fold;
    ReachStep(s0, s, Append(id, event));
    t := Next(s, Append(id, event));
    ReachStep(s0, t, SaveProgress(id));
    t := Next(t, SaveProgress(id));
    assert s.flights[id := Executing(false)] == s.flights;
  }

  lemma {:induction false} EventsHalf(s0: State, s: State, id: RunId, events: seq<Progress.Event>) returns (t: State)
    requires Reaches(s0, s) && JustStarted(s, id)
    ensures Reaches(s0, t)
    ensures t == s.(histories := t.histories, disk := AfterEvents(s.disk, id, events))
    ensures HistoryOf(t, id) == History(events, |events|, |events|)
    ensures events == [] ==> t == s
  {
    hide Reaches, Progress.Fold, Progress.Summaries, Progress.Apply;
    if events == [] {
      t := s;
      RunService.NoEvents();
      RunService.NothingHandled(s.disk.runs[id]);
    } else {
      var init, last := events[..|events| - 1], events[|events| - 1];
      var u := EventsHalf(s0, s, id, init);
      t := EventStep(s0, u, id, last);
      assert init + [last] == events;
      RunService.OneMoreLine(s.disk.runs[id], u.disk, id, init, last,
                             s.disk.runs[id].record.value.(progress := Progress.Fold(events)));
    }
  }

  /** The release of a run that is over. */
  lemma ReleaseHalf(s0: State, s: State, id: RunId) returns (t: State)
    requires Reaches(s0, s) && At(s, id, Closing) && s.disk.lock == Holds(id)
    ensures Reaches(s0, t)
    ensures t == s.(flights := s.flights - {id}, cancelled := s.cancelled - {id}, disk := s.disk.(lock := Absent))
  {
    hide Reaches;
    ReachStep(s0, s, ReadHolder(id));
    t := Next(s, ReadHolder(id));
    ReachStep(s0, t, Unlink(id));
    t := Next(t, Unlink(id));
    assert t.flights == s.flights - {id};
  }

  /** The terminal save, however the run ended. */
  lemma FinishHalf(s0: State, s: State, id: RunId, ending: Ending) returns (t: State)
    requires Reaches(s0, s) && CanFinish(s, id, ending)
    ensures Reaches(s0, t)
    ensures var h := FinalHistory(HistoryOf(s, id), ending);
            var disk := if ending.Raised? && ending.torn then Appended(s.disk, id, Torn) else s.disk;
            var record := Ended(RecordOf(s.disk, id).value, ending, Progress.Fold(h.seen));
            t == s.(flights := s.flights[id := Closing], histories := s.histories[id := h],
                    disk := SetRecord(disk, id, record))
  {
    hide Reaches, Progress.Fold, FinalState, FinalHistory, HistoryOf;
    ReachStep(s0, s, Finish(id, ending));
    t := Next(s, Finish(id, ending));
  }

  /** The terminal save and the release. */
  lemma EndHalf(s0: State, s: State, id: RunId, ending: Ending) returns (t: State)
    requires Reaches(s0, s) && CanFinish(s, id, ending) && s.disk.lock == Holds(id)
    ensures Reaches(s0, t)
    ensures var h := FinalHistory(HistoryOf(s, id), ending);
            var disk := if ending.Raised? && ending.torn then Appended(s.disk, id, Torn) else s.disk;
            var record := Ended(RecordOf(s.disk, id).value, ending, Progress.Fold(h.seen));
            t == s.(flights := s.flights - {id}, histories := s.histories[id := h], cancelled := s.cancelled - {id},
                    disk := SetRecord(disk, id, record).(lock := Absent))
  {
    hide Reaches, Progress.Fold, FinalState, FinalHistory, HistoryOf;
    t := FinishHalf(s0, s, id, ending);
    t := ReleaseHalf(s0, t, id);
    assert s.flights[id := Closing] - {id} == s.flights - {id};
  }

  // ---- a launch ----

  /** Any launch from an idle state, whatever raises in it, is an execution of the protocol. It
      leaves the lock free exactly when it never took it or undid a creation that raised, and a
      record the service will never finish exactly when a step after the creation raised. */
  lemma LaunchIsAnExecution(s: State, request: Request, inventory: string, fault: RunService.LaunchFault)
    returns (t: State)
    requires Idle(s)
    ensures Reaches(s, t) && t.mode.Serving?
    ensures t.disk == RunService.AfterLaunch(s.disk, s.clock, request, inventory, fault)
    ensures t.flights == if fault.NoFault? then s.flights[s.clock := Executing(false)] else s.flights
    ensures t.disk.lock.Absent? <==> fault.TakingLock? || (fault.Creating? && fault.unlinked)
    ensures Unfinished(t.disk, s.clock) <==> fault.NoFault? || fault.SavingRunning? || fault.StartingThread?
  {
    hide Reaches;
    ReachesItself(s);
    match fault
    case NoFault => t := LaunchHalf(s, s, request, inventory);
    case StartingThread =>
      t := LaunchHalf(s, s, request, inventory);
      t := Stranded(s, t, s.clock);
      assert t.flights == s.flights;
    case _ => t := BrokenLaunch(s, request, inventory, fault);
  }

  lemma Stranded(s0: State, s: State, id: RunId) returns (t: State)
    requires Reaches(s0, s) && s.mode.Serving? && id in s.flights && CanStrand(s.flights[id])
    ensures Reaches(s0, t) && t == Gone(s, id)
  {
    hide Reaches;
    ReachStep(s0, s, Strand(id));
    t := Next(s, Strand(id));
  }

  lemma BrokenLaunch(s: State, request: Request, inventory: string, fault: RunService.LaunchFault) returns (t: State)
    requires Idle(s) && !fault.NoFault? && !fault.StartingThread?
    ensures Reaches(s, t) && t.mode.Serving? && t.flights == s.flights
    ensures t.disk == RunService.AfterLaunch(s.disk, s.clock, request, inventory, fault)
  {
    hide Reaches;
    var id := s.clock;
    ReachesItself(s);
    ReachStep(s, s, ChooseId);
    t := Next(s, ChooseId);
    match fault
    case TakingLock =>
      ReachStep(s, t, Refuse(id));
      t := Next(t, Refuse(id));
    case WritingId =>
      ReachStep(s, t, Open(id));
      t := Next(t, Open(id));
      ReachStep(s, t, WriteFails(id));
      t := Next(t, WriteFails(id));
    case Creating(made, unlinked) =>
      t := TakeLock(s, t, id);
      t := UndoneLaunch(s, t, id, made, unlinked);
      assert t.disk.runs == RunService.AfterLaunch(s.disk, id, request, inventory, fault).runs;
    case SavingRunning =>
      t := TakeLock(s, t, id);
      ReachStep(s, t, Create(id, request, inventory));
      t := Next(t, Create(id, request, inventory));
      t := Stranded(s, t, id);
    assert t.flights == s.flights;
  }

  lemma UndoneLaunch(s0: State, s: State, id: RunId, made: bool, unlinked: bool) returns (t: State)
    requires Reaches(s0, s) && At(s, id, Locked) && s.disk.lock == Holds(id)
    ensures Reaches(s0, t) && t.mode.Serving? && t.flights == s.flights - {id}
    ensures t.disk == Disk(if unlinked then Absent else Holds(id),
                           if made then s.disk.runs[id := RunDir(None, [], "")] else s.disk.runs)
  {
    hide Reaches;
    ReachStep(s0, s, CreateFails(id, made));
    t := Next(s, CreateFails(id, made));
    if unlinked {
      t := ReleaseHalf(s0, t, id);
    } else {
      t := Stranded(s0, t, id);
    }
    assert s.flights[id := Closing] - {id} == s.flights - {id};
  }

  // ---- a whole run ----

  /** The disk `RunService.Launch` then `RunService.Execute` leave. */
  function ServiceRun(d: Disk, id: RunId, request: Request, inventory: string, events: seq<Progress.Event>,
                      c: RunService.Conclusion, end: RunService.EndFault): Disk
    requires c.saved <= c.logged <= |events|
  {
    RunService.AfterRun(RunService.Launched(d, id, request, inventory), RunService.Started(id, request), events, c, end)
  }

  /** How the log, the record and the ending of an execution go together. */
  predicate Fits(events: seq<Progress.Event>, c: RunService.Conclusion) {
    && c.saved <= c.logged <= |events| && c.logged <= c.saved + 1
    && (c.logged > c.saved ==> c.ending == RunService.RAISED)
    && (c.Torn() ==> c.ending.unlogged.Some?)
  }

  lemma ConclusionFits(events: seq<Progress.Event>, asked: bool, arrivals: seq<bool>, returnCode: int,
                       fault: RunService.RunFault)
    requires |arrivals| >= |events|
    ensures Fits(events, RunService.Concluded(events, asked, arrivals, returnCode, fault))
  {
    hide RunService.HandedOver, Progress.Summarise;
  }

  /** A cancel request that arrives while a run executes. */
  lemma Asked(s0: State, s: State, id: RunId) returns (t: State)
    requires Reaches(s0, s) && At(s, id, Executing(false)) && Unfinished(s.disk, id)
    ensures Reaches(s0, t)
    ensures t == s.(checked := t.checked, cancelled := s.cancelled + {id}, asked := s.asked + {id})
  {
    hide Reaches;
    ReachStep(s0, s, CheckCancel(id));
    t := Next(s, CheckCancel(id));
    ReachStep(s0, t, Cancel(id));
    t := Next(t, Cancel(id));
  }

  predicate AskedToStop(c: RunService.Conclusion) {
    c.ending.Returned? && c.ending.outcome.cancelled
  }

  /** A run just started, with its lock. */
  ghost predicate Running(s: State, id: RunId) {
    && JustStarted(s, id) && s.disk.lock == Holds(id) && Unfinished(s.disk, id)
    && id !in s.cancelled
  }

  /** Up to the end of the adapter, with everything logged also saved. */
  lemma AdapterHalf(s0: State, s: State, id: RunId, events: seq<Progress.Event>, c: RunService.Conclusion)
    returns (t: State)
    requires Reaches(s0, s) && Running(s, id) && c.logged <= |events|
    ensures Reaches(s0, t) && At(t, id, Executing(false)) && t.flights == s.flights && t.replay == s.replay
    ensures t.disk == AfterEvents(s.disk, id, events[..c.logged])
    ensures HistoryOf(t, id).seen == events[..c.logged]
    ensures var asked := if AskedToStop(c) then {id} else {};
            t.cancelled == s.cancelled + asked && t.asked == s.asked + asked
  {
    hide Reaches, Progress.Fold, Progress.Summaries;
    t := EventsHalf(s0, s, id, events[..c.logged]);
    if AskedToStop(c) {
      t := Asked(s0, t, id);
    }
  }

  lemma LastEvents(h: History, events: seq<Progress.Event>, c: RunService.Conclusion)
    requires c.logged <= |events| && h.seen == events[..c.logged]
    ensures FinalHistory(h, c.ending).seen == RunService.Applied(events, c)
  {}

  /** The run goes on to its terminal save, and then to its release or not. */
  lemma SavedHalf(s0: State, s: State, id: RunId, events: seq<Progress.Event>, c: RunService.Conclusion,
                  end: RunService.EndFault)
    returns (t: State)
    requires Reaches(s0, s) && Running(s, id) && Fits(events, c) && !end.TerminalSave?
    ensures Reaches(s0, t) && t.mode.Serving? && t.flights == s.flights - {id}
    ensures t.disk == RunService.AfterRun(s.disk, s.disk.runs[id].record.value, events, c, end)
    ensures t.cancelled == s.cancelled + if AskedToStop(c) && end.Unlinking? then {id} else {}
    ensures t.asked == s.asked + if AskedToStop(c) then {id} else {}
  {
    hide Reaches, Progress.Fold, Progress.Summaries, FinalState, FinalHistory;
    t := AdapterHalf(s0, s, id, events, c);
    LastEvents(HistoryOf(t, id), events, c);
    if end.Closes? {
      t := EndHalf(s0, t, id, c.ending);
      assert t.cancelled == s.cancelled;
    } else {
      t := FinishHalf(s0, t, id, c.ending);
      t := Stranded(s0, t, id);
      assert t.flights == s.flights - {id};
    }
    assert t.disk.runs == s.disk.runs[id := t.disk.runs[id]];
  }

  /** The terminal save raises: the record stays as the last event left it. */
  lemma UnsavedHalf(s0: State, s: State, id: RunId, events: seq<Progress.Event>, c: RunService.Conclusion)
    returns (t: State)
    requires Reaches(s0, s) && Running(s, id) && Fits(events, c)
    ensures Reaches(s0, t) && t.mode.Serving? && t.flights == s.flights - {id}
    ensures t.disk == RunService.AfterRun(s.disk, s.disk.runs[id].record.value, events, c, RunService.TerminalSave)
    ensures t.cancelled == s.cancelled + if AskedToStop(c) then {id} else {}
    ensures t.asked == s.asked + if AskedToStop(c) then {id} else {}
  {
    hide Reaches, Progress.Fold, Progress.Summaries;
    if c.logged > c.saved {
      t := EventsHalf(s0, s, id, events[..c.saved]);
      t := UnsavedEvent(s0, s, t, id, events, c);
    } else if c.Torn() {
      t := AdapterHalf(s0, s, id, events, c);
      ReachStep(s0, t, StrandTorn(id));
      t := Next(t, StrandTorn(id));
    } else {
      t := AdapterHalf(s0, s, id, events, c);
      t := Stranded(s0, t, id);
    }
    assert t.disk.runs == s.disk.runs[id := t.disk.runs[id]];
  }

  /** An event that is logged and not saved. */
  lemma UnsavedEvent(s0: State, s: State, u: State, id: RunId, events: seq<Progress.Event>, c: RunService.Conclusion)
    returns (t: State)
    requires Reaches(s0, u) && Running(s, id) && Fits(events, c) && c.logged == c.saved + 1
    requires u == s.(histories := u.histories, disk := AfterEvents(s.disk, id, events[..c.saved]))
    ensures Reaches(s0, t) && t.mode.Serving? && t.flights == s.flights - {id}
    ensures t == s.(histories := t.histories, flights := t.flights, disk := t.disk)
    ensures t.disk == s.disk.(runs := s.disk.runs[id := RunService.FinalDir(
              s.disk.runs[id], RunService.LastRecord(s.disk.runs[id].record.value, events, c), events, c)])
  {
    hide Reaches, Progress.Fold, Progress.Summaries;
    var event := events[c.saved];
    assert events[..c.saved] + [event] == events[..c.logged];
    ReachStep(s0, u, Append(id, event));
    t := Next(u, Append(id, event));
    var dir, last := s.disk.runs[id], RunService.LastRecord(s.disk.runs[id].record.value, events, c);
    RunService.OneMoreLine(dir, u.disk, id, events[..c.saved], event, last);
    t := Stranded(s0, t, id);
    assert t.flights == s.flights - {id};
    assert t.disk.runs == s.disk.runs[id := t.disk.runs[id]];
  }

  /** From any idle state, a run that the service launches and executes with the replaying
      adapter, cancelled or not, whatever raises in it and at its end, ends on the disk of an
      execution of the protocol; it was asked to stop in it exactly when it ends cancelled. */
  lemma ServiceRunIsAnExecution(s: State, request: Request, inventory: string, events: seq<Progress.Event>,
                                arrivals: seq<bool>, returnCode: int, fault: RunService.RunFault,
                                end: RunService.EndFault)
    returns (t: State)
    requires Idle(s) && |arrivals| >= |events|
    ensures Reaches(s, t) && t.mode.Serving? && t.flights == s.flights
    ensures var c := RunService.Concluded(events, s.clock in s.cancelled, arrivals, returnCode, fault);
            var asked := if c.ending == RunService.CANCELLED then {s.clock} else {};
      && t.disk == ServiceRun(s.disk, s.clock, request, inventory, events, c, end)
      && t.asked == s.asked + asked
      && t.cancelled == s.cancelled + if end.Closes? then {} else asked
  {
    hide Reaches, Progress.Fold, Progress.Summaries, RunService.AfterRun, Fits;
    var id := s.clock;
    var c := RunService.Concluded(events, false, arrivals, returnCode, fault);
    ConclusionFits(events, false, arrivals, returnCode, fault);
    CancelledExactly(events, arrivals, returnCode, fault);
    hide RunService.Concluded;
    ReachesItself(s);
    t := LaunchHalf(s, s, request, inventory);
    if end.TerminalSave? {
      t := UnsavedHalf(s, t, id, events, c);
    } else {
      t := SavedHalf(s, t, id, events, c, end);
    }
    assert t.flights == s.flights;
  }

  lemma CancelledExactly(events: seq<Progress.Event>, arrivals: seq<bool>, returnCode: int, fault: RunService.RunFault)
    requires |arrivals| >= |events|
    ensures var c := RunService.Concluded(events, false, arrivals, returnCode, fault);
            AskedToStop(c) <==> c.ending == RunService.CANCELLED
  {
    hide RunService.HandedOver, RunService.Strikes;
  }

  /** A full disk is enough: the append leaves half a line, the terminal save raises, and the
      service goes on with the run marked RUNNING and the lock held. */
  lemma FullDiskStrandsARun(s: State, request: Request, inventory: string, event: Progress.Event, returnCode: int)
    returns (t: State)
    requires Idle(s) && Progress.Summarise(event).Some?
    ensures Reaches(s, t) && t.mode.Serving? && t.flights == s.flights
    ensures t.disk.lock == Holds(s.clock) && Unfinished(t.disk, s.clock) && EventsOf(t.disk, s.clock) == [Torn]
  {
    hide Reaches, Progress.Fold, Progress.Summarise, Idle;
    var fault := RunService.Logging(0, true);
    t := ServiceRunIsAnExecution(s, request, inventory, [event], [false], returnCode, fault, RunService.TerminalSave);
    assert s.clock !in s.cancelled && s.clock !in s.disk.runs by {
      IdleIsFresh(s);
    }
    RunService.QuietPast([event], [false], 0);
    var c := RunService.Concluded([event], false, [false], returnCode, fault);
    assert c.logged == c.saved == 0 && c.Torn();
    assert [event][..0] == [];
    RunService.NoEvents();
  }

  lemma IdleIsFresh(s: State)
    requires Idle(s)
    ensures s.clock !in s.cancelled && s.clock !in s.disk.runs
  {}
}
