/** A launch picks its id before it takes the lock, so it can be overtaken. Recovery looks
    at the 1000 newest records only: when that is enough, and a run in which it is not. */
module RunOrder {
  import opened RunStore
  import opened RunProtocol
  import opened RunRecovery
  import RunSafety
  import Progress

  // ---- launches that take the lock in the order of their ids ----

  /** A launch that takes the lock is newer than every record. */
  ghost predicate Orderly(s: State, a: Action) {
    a.Open? ==> forall other :: other in Visible(s.disk) ==> other < a.id
  }

  ghost predicate OrderlyRun(s: State, actions: seq<Action>)
    requires Valid(s, actions)
    decreases |actions|
  {
    actions == [] || (Orderly(s, actions[0]) && OrderlyRun(Next(s, actions[0]), actions[1..]))
  }

  /** The run holding the lock, in flight or left unfinished, is the newest. */
  ghost predicate HolderIsNewest(s: State) {
    forall id :: (id in s.flights && Holding(s.flights[id])) || Unfinished(s.disk, id) ==> Newer(s.disk, id) == {}
  }

  lemma VisibleAfter(s: State, a: Action)
    requires Safe(s) && Enabled(s, a)
    ensures Visible(Next(s, a).disk) == Visible(s.disk) + if a.Create? then {a.id} else {}
  {
    hide Visible;
    forall id ensures id in Visible(Next(s, a).disk) <==> id in Visible(s.disk) || (a.Create? && a.id == id) {
      hide Safe, Enabled, Next;
      VisibleOne(s, a, id);
    }
  }

  lemma VisibleOne(s: State, a: Action, id: RunId)
    requires Safe(s) && Enabled(s, a)
    ensures id in Visible(Next(s, a).disk) <==> id in Visible(s.disk) || (a.Create? && a.id == id)
  {
    hide LockOk, BootOk, Recoverable, TracesOk, LogOk, Progress.Fold, HistoryOf, RecordOk;
    if !RunSafety.Touches(s, a, id) {
      RunSafety.RecordUntouched(s, a, id);
    } else {
      RunSafety.TraceAt(s, id);
    }
  }

  lemma StepKeepsNewest(s: State, a: Action)
    requires Safe(s) && Enabled(s, a) && Orderly(s, a) && HolderIsNewest(s)
    ensures HolderIsNewest(Next(s, a))
  {
    hide TracesOk, Fresh, BootOk, Unfinished, Visible, Recoverable, HistoryOf;
    var t := Next(s, a);
    VisibleAfter(s, a);
    forall id | (id in t.flights && Holding(t.flights[id])) || Unfinished(t.disk, id)
      ensures Newer(t.disk, id) == {}
    {
      RunSafety.UnfinishedAfter(s, a, id);
    }
  }

  /** When launches take the lock in the order of their ids, recovery never misses an
      unfinished run, however many records there are. */
  lemma {:induction false} OrderlyNeverOvertaken(s: State, actions: seq<Action>)
    requires Safe(s) && HolderIsNewest(s) && Valid(s, actions) && OrderlyRun(s, actions)
    ensures NotOvertaken(After(s, actions).disk)
    decreases |actions|
  {
    hide Safe, Enabled, Next, HolderIsNewest, Orderly;
    if actions == [] {
      NewestNotOvertaken(s);
    } else {
      RunSafety.StepKeepsSafe(s, actions[0]);
      StepKeepsNewest(s, actions[0]);
      OrderlyNeverOvertaken(Next(s, actions[0]), actions[1..]);
    }
  }

  lemma NewestNotOvertaken(s: State)
    requires HolderIsNewest(s)
    ensures NotOvertaken(s.disk)
  {
    hide Newer, Unfinished;
  }

  lemma OrderlyFromStart(replay: bool, actions: seq<Action>)
    requires Valid(Start(replay), actions) && OrderlyRun(Start(replay), actions)
    ensures NotOvertaken(After(Start(replay), actions).disk)
  {
    RunSafety.StartIsSafe(replay);
    OrderlyNeverOvertaken(Start(replay), actions);
  }

  /** From any safe stopped state, a completed restart leaves an unfinished record exactly
      when 1000 newer records hide it; its lock then stays, and every later launch is
      refused. */
  lemma MissedExactly(s: State, todo: seq<RunId>)
    requires Safe(s) && s.mode.Down?
    requires Distinct(todo) && forall id :: id in todo <==> id in Recoverable(s.disk)
    requires Valid(s, Restart(todo))
    ensures var t := After(s, Restart(todo));
      && (forall id :: Unfinished(t.disk, id) <==> Unfinished(s.disk, id) && |Newer(s.disk, id)| >= 1000)
      && (forall id, launch :: Unfinished(t.disk, id) ==> t.disk.lock == Holds(id) && !Enabled(t, Open(launch)))
  {
    hide Fresh, TracesOk, BootOk, Newer, Reconciled, Enabled, Next, At;
    RestartIsReconcile(s, todo);
    var t := After(s, Restart(todo));
    forall id ensures Unfinished(t.disk, id) <==> Unfinished(s.disk, id) && |Newer(s.disk, id)| >= 1000 {
      RecoveryOutcome(s.disk, id);
    }
    RunSafety.RunsKeepSafe(s, Restart(todo));
    forall id, launch | Unfinished(t.disk, id) ensures t.disk.lock == Holds(id) && !Enabled(t, Open(launch)) {
      assert UnfinishedNamed(t.disk);
      HeldIsClosed(t, launch);
    }
  }

  lemma HeldIsClosed(t: State, launch: RunId)
    ensures !t.disk.lock.Absent? ==> !Enabled(t, Open(launch))
  {
    hide At;
  }
}
