/** A lock that exists with no unfinished record is never cleared by a restart. Where such a
    lock comes from, over every execution, and what becomes of it. */
module RunLeftover {
  import opened Wrappers
  import opened RunStore
  import opened RunProtocol
  import opened RunRecovery
  import RunSafety

  /** A lock that no restart would clear. */
  ghost predicate Unrecoverable(d: Disk) {
    !d.lock.Absent? && forall id :: !Unfinished(d, id)
  }

  /** A launch that has the lock and no record yet, or a run that is over and still has it. */
  ghost predicate InWindow(s: State) {
    exists id :: id in s.flights && Idling(s.flights[id])
  }

  predicate Idling(phase: Phase) {
    phase.Opened? || phase.Locked? || phase.Closing? || phase.Releasing?
  }

  /** Recovery saved a record and has not removed the lock yet. */
  predicate Recovering(s: State) {
    s.mode.Booting? && s.mode.recovered
  }

  /** A lock that nothing will remove any more: no run holds it and recovery does not see it. */
  ghost predicate Abandoned(s: State) {
    Unrecoverable(s.disk) && !InWindow(s) && !Recovering(s)
  }

  /** The steps that leave such a lock behind: the id could not be written into it, it could not
      be unlinked, or the machine went down in one of the windows. */
  ghost predicate Abandons(s: State, a: Action) {
    match a
    case WriteFails(_) => true
    case Strand(id) => id in s.flights && (s.flights[id].Closing? || s.flights[id].Releasing?)
    case Crash(_) => InWindow(s) || Recovering(s)
    case _ => false
  }

  lemma HolderDecides(s: State, id: RunId)
    requires Safe(s) && id in s.flights && Holding(s.flights[id])
    ensures !s.disk.lock.Absent?
    ensures Unrecoverable(s.disk) <==> Idling(s.flights[id])
    ensures InWindow(s) <==> Idling(s.flights[id])
  {
    hide Fresh, BootOk, LogOk, RecordOk;
    RunSafety.TraceAt(s, id);
    assert LocksFit(s) && UnfinishedNamed(s.disk) && Exclusive(s);
    if s.flights[id].Created? || s.flights[id].Executing? {
      assert Unfinished(s.disk, id);
    } else {
      assert !Unfinished(s.disk, id);
      assert forall other :: Unfinished(s.disk, other) ==> s.disk.lock == Holds(other);
    }
  }

  lemma NobodyInWindow(s: State)
    requires forall id :: id in s.flights ==> !Holding(s.flights[id])
    ensures !InWindow(s)
  {}

  lemma RecoveringIsUnrecoverable(s: State)
    requires Safe(s) && Recovering(s)
    ensures Unrecoverable(s.disk) && !InWindow(s)
  {
    hide Unfinished, TracesOk, LockOk;
  }

  /** A run that holds the lock before and after a step: nothing is abandoned either way. */
  lemma StillHeld(s: State, a: Action, id: RunId)
    requires Safe(s) && Enabled(s, a)
    requires id in s.flights && Holding(s.flights[id])
    requires id in Next(s, a).flights && Holding(Next(s, a).flights[id])
    ensures !Abandoned(s) && !Abandoned(Next(s, a))
  {
    hide Safe, Enabled, Next, InWindow, Unrecoverable;
    RunSafety.StepKeepsSafe(s, a);
    HolderDecides(s, id);
    HolderDecides(Next(s, a), id);
  }

  lemma SameLock(s: State, a: Action)
    requires Safe(s) && Enabled(s, a)
    requires a.ChooseId? || a.Refuse? || a.CheckCancel? || a.Cancel? || a.Boot?
    ensures Abandoned(Next(s, a)) <==> Abandoned(s)
    ensures Abandoned(s) ==> Next(s, a).disk.lock == s.disk.lock
  {
    hide Safe, Unrecoverable, Recoverable;
    var t := Next(s, a);
    assert t.disk == s.disk;
    if a.ChooseId? {
      assert s.clock !in s.flights by { ClockIsFresh(s); }
    }
    assert InWindow(t) <==> InWindow(s) by {
      if id :| id in s.flights && Idling(s.flights[id]) {
        assert id in t.flights && Idling(t.flights[id]);
      }
      if id :| id in t.flights && Idling(t.flights[id]) {
        assert id in s.flights && Idling(s.flights[id]);
      }
    }
  }

  lemma ClockIsFresh(s: State)
    requires Safe(s)
    ensures s.clock !in s.flights
  {
    hide TracesOk, LockOk, BootOk;
  }

  /** A holder that goes, with the lock left as it is: abandoned exactly when the holder was in
      a window. */
  lemma HolderGoes(s: State, a: Action)
    requires Safe(s) && Enabled(s, a) && (a.WriteFails? || a.Strand?)
    ensures !Abandoned(s)
    ensures Abandoned(Next(s, a)) <==> Abandons(s, a)
  {
    hide Unfinished, TracesOk, BootOk, Fresh;
    var t := Next(s, a);
    hide Safe, InWindow, Unrecoverable;
    HolderDecides(s, a.id);
    assert t.disk == s.disk;
    NobodyElse(s, a.id);
    NobodyInWindow(t);
  }

  /** A run whose record says RUNNING is left for recovery to find. */
  lemma TornAbandonsNothing(s: State, a: Action)
    requires Safe(s) && Enabled(s, a) && a.StrandTorn?
    ensures !Abandoned(s) && !Abandoned(Next(s, a))
  {
    hide Safe, InWindow, Unfinished;
    RunningIsUnfinished(s, a.id);
    RunSafety.UnfinishedAfter(s, a, a.id);
  }

  lemma RunningIsUnfinished(s: State, id: RunId)
    requires Safe(s) && id in s.flights && (s.flights[id].Created? || s.flights[id].Executing?)
    ensures Unfinished(s.disk, id)
  {
    hide LockOk, Fresh, BootOk, LogOk, RecordOk;
    RunSafety.TraceAt(s, id);
  }

  lemma NobodyElse(s: State, id: RunId)
    requires Safe(s) && id in s.flights && Holding(s.flights[id])
    ensures forall other :: other in s.flights && other != id ==> !Holding(s.flights[other])
  {
    hide TracesOk, BootOk, Fresh;
    assert Exclusive(s);
  }

  lemma CrashAbandons(s: State, torn: Option<RunId>)
    requires Safe(s) && Enabled(s, Crash(torn))
    ensures Abandoned(Next(s, Crash(torn))) <==> Abandoned(s) || Abandons(s, Crash(torn))
    ensures Next(s, Crash(torn)).disk.lock == s.disk.lock
  {
    hide Safe, Unrecoverable, Unfinished;
    var a := Crash(torn);
    var t := Next(s, a);
    forall id ensures Unfinished(t.disk, id) <==> Unfinished(s.disk, id) {
      RunSafety.UnfinishedAfter(s, a, id);
    }
    assert t.disk.lock == s.disk.lock && t.flights == map[];
    SameUnrecoverable(s.disk, t.disk);
    if Recovering(s) {
      RecoveringIsUnrecoverable(s);
    }
    if id :| id in s.flights && Idling(s.flights[id]) {
      HolderDecides(s, id);
    }
  }

  lemma SameUnrecoverable(d: Disk, e: Disk)
    requires d.lock == e.lock && forall id :: Unfinished(d, id) <==> Unfinished(e, id)
    ensures Unrecoverable(d) <==> Unrecoverable(e)
  {
    hide Unfinished;
  }

  lemma BootAbandonsNothing(s: State, a: Action)
    requires Safe(s) && Enabled(s, a) && (a.BootSave? || a.BootDone?)
    ensures Abandoned(Next(s, a)) <==> Abandoned(s)
    ensures Abandoned(s) ==> Next(s, a).disk.lock == s.disk.lock
  {
    hide LockOk, TracesOk, InWindow, Visible, InCut;
    if a.BootSave? {
      assert s.mode.todo[0] in s.mode.todo;
    } else {
      NobodyInWindow(s);
      NobodyInWindow(Next(s, a));
    }
  }

  lemma OpenAndUnlink(s: State, a: Action)
    requires Safe(s) && Enabled(s, a) && (a.Open? || a.Unlink?)
    ensures !Abandoned(s) && !Abandoned(Next(s, a))
  {
    hide TracesOk, BootOk, Fresh, Unfinished;
    if a.Open? {
      assert Idling(Next(s, a).flights[a.id]);
    } else {
      assert LocksFit(s) && Idling(s.flights[a.id]);
    }
  }

  lemma KeepsHolding(s: State, a: Action)
    requires Enabled(s, a)
    requires a.WriteId? || a.Create? || a.CreateFails? || a.SaveRunning? || a.Append? || a.SaveProgress?
          || a.Finish? || a.ReadHolder?
    ensures a.id in s.flights && Holding(s.flights[a.id])
    ensures a.id in Next(s, a).flights && Holding(Next(s, a).flights[a.id])
  {}

  /** After a step the lock is abandoned exactly when it was, or when the step abandons it. */
  lemma AbandonedExactly(s: State, a: Action)
    requires Safe(s) && Enabled(s, a)
    ensures Abandoned(Next(s, a)) <==> Abandoned(s) || Abandons(s, a)
    ensures Abandoned(s) ==> Next(s, a).disk.lock == s.disk.lock
  {
    hide Safe, Abandoned, InWindow, Next, Enabled;
    match a
    case ChooseId | Refuse(_) | CheckCancel(_) | Cancel(_) | Boot(_) => SameLock(s, a);
    case WriteFails(_) | Strand(_) => HolderGoes(s, a);
    case StrandTorn(_) => TornAbandonsNothing(s, a);
    case Crash(torn) => CrashAbandons(s, torn);
    case BootSave | BootDone => BootAbandonsNothing(s, a);
    case Open(_) | Unlink(_) => OpenAndUnlink(s, a);
    case _ =>
      KeepsHolding(s, a);
      StillHeld(s, a, a.id);
  }

  // ---- over whole executions ----

  /** Some step of the execution leaves the lock behind. */
  ghost predicate SomeStepAbandons(s: State, actions: seq<Action>)
    requires Valid(s, actions)
    decreases |actions|
  {
    actions != [] && (Abandons(s, actions[0]) || SomeStepAbandons(Next(s, actions[0]), actions[1..]))
  }

  /** Over any execution the lock is abandoned at the end exactly when it was at the start or
      some step abandoned it: nothing else leaves such a lock, and nothing clears it again. */
  lemma {:induction false} AbandonedOverRuns(s: State, actions: seq<Action>)
    requires Safe(s) && Valid(s, actions)
    ensures Abandoned(After(s, actions)) <==> Abandoned(s) || SomeStepAbandons(s, actions)
    ensures Abandoned(s) ==> After(s, actions).disk.lock == s.disk.lock
    decreases |actions|
  {
    hide Safe, Enabled, Next, Abandoned, Abandons;
    if actions != [] {
      AbandonedExactly(s, actions[0]);
      RunSafety.StepKeepsSafe(s, actions[0]);
      AbandonedOverRuns(Next(s, actions[0]), actions[1..]);
    }
  }

  /** Where every lock stands that a crash now, and a completed restart, would leave: with a
      launch before its record or a run after its terminal save, with a recovery after its
      save, or abandoned by an earlier step of this very execution. */
  lemma SurvivalWindows(replay: bool, actions: seq<Action>, torn: Option<RunId>)
    requires Valid(Start(replay), actions)
    requires NotOvertaken(After(Start(replay), actions).disk)
    requires torn.Some? ==> At(After(Start(replay), actions), torn.value, Executing(false))
    ensures var s := After(Start(replay), actions);
      !Reconciled(Crashed(s, torn).disk).lock.Absent? <==>
        InWindow(s) || Recovering(s) || SomeStepAbandons(Start(replay), actions)
  {
    hide Safe, Reconciled, Crashed, NotOvertaken, InWindow, Recovering;
    var s0 := Start(replay);
    RunSafety.StartIsSafe(replay);
    RunSafety.RunsKeepSafe(s0, actions);
    AbandonedOverRuns(s0, actions);
    var s := After(s0, actions);
    LockSurvives(s, torn);
    WindowsAreUnrecoverable(s);
  }

  lemma WindowsAreUnrecoverable(s: State)
    requires Safe(s)
    ensures InWindow(s) || Recovering(s) ==> Unrecoverable(s.disk)
  {
    hide Safe, Unrecoverable, Recovering;
    if id :| id in s.flights && Idling(s.flights[id]) {
      HolderDecides(s, id);
    }
    if Recovering(s) {
      RecoveringIsUnrecoverable(s);
    }
  }

  /** An abandoned lock stays as it is over any execution, restarts included, and every launch
      is refused from then on. */
  lemma AbandonedForEver(s: State, actions: seq<Action>, launch: RunId)
    requires Safe(s) && Abandoned(s) && Valid(s, actions)
    ensures After(s, actions).disk.lock == s.disk.lock
    ensures !Enabled(After(s, actions), Open(launch))
  {
    hide Safe, InWindow, Recovering, At;
    AbandonedOverRuns(s, actions);
  }

  function Booted(replay: bool): State {
    Start(replay).(mode := Serving)
  }

  lemma FirstBoot(replay: bool, rest: seq<Action>)
    requires Valid(Booted(replay), rest)
    ensures Valid(Start(replay), [Boot([]), BootDone] + rest)
    ensures After(Start(replay), [Boot([]), BootDone] + rest) == After(Booted(replay), rest)
  {
    var s, booting := Start(replay), Start(replay).(mode := Booting([], false));
    assert Enabled(s, Boot([])) && Next(s, Boot([])) == booting;
    assert Enabled(booting, BootDone) && Next(booting, BootDone) == Booted(replay);
    hide Enabled, Next;
    FirstStep(booting, BootDone, rest);
    FirstStep(s, Boot([]), [BootDone] + rest);
    assert [Boot([])] + ([BootDone] + rest) == [Boot([]), BootDone] + rest;
  }

  /** A full disk is enough: an id that cannot be written leaves an empty lock, with no crash. */
  lemma FailedWriteLocksForEver(replay: bool)
    ensures var actions := [Boot([]), BootDone] + [ChooseId, Open(0), WriteFails(0)];
      && Valid(Start(replay), actions)
      && After(Start(replay), actions).disk.lock == Empty
      && Abandoned(After(Start(replay), actions))
  {
    var s := Booted(replay);
    ThreeSteps(s, ChooseId, Open(0), WriteFails(0));
    var t := Next(Next(Next(s, ChooseId), Open(0)), WriteFails(0));
    assert t.flights == map[];
    hide Enabled, Next, Valid, After, Booted;
    FirstBoot(replay, [ChooseId, Open(0), WriteFails(0)]);
  }
}
