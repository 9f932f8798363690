/** Crash recovery: exactly what a completed restart repairs, and what it leaves. */
module RunRecovery {
  import opened Wrappers
  import opened RunStore
  import opened RunProtocol
  import RunSafety

  // ---- the restart steps are the recovery of the store ----

  lemma AtMostOneRecoverable(s: State, a: RunId, b: RunId)
    requires Safe(s) && a in Recoverable(s.disk) && b in Recoverable(s.disk)
    ensures a == b && s.disk.lock == Holds(a)
  {
    hide TracesOk, Fresh, BootOk, InCut;
    assert Unfinished(s.disk, a) && Unfinished(s.disk, b);
  }

  function Restart(todo: seq<RunId>): seq<Action> {
    if todo == [] then [Boot(todo), BootDone] else [Boot(todo), BootSave, BootDone]
  }

  lemma FirstStep(s: State, a: Action, rest: seq<Action>)
    requires Enabled(s, a) && Valid(Next(s, a), rest)
    ensures Valid(s, [a] + rest) && After(s, [a] + rest) == After(Next(s, a), rest)
  {
    hide Enabled, Next;
    assert ([a] + rest)[1..] == rest;
  }

  lemma TwoSteps(s: State, a: Action, b: Action)
    requires Enabled(s, a) && Enabled(Next(s, a), b)
    ensures Valid(s, [a, b]) && After(s, [a, b]) == Next(Next(s, a), b)
  {
    hide Enabled, Next;
    FirstStep(Next(s, a), b, []);
    FirstStep(s, a, [b]);
    assert [b] + [] == [b] && [a] + [b] == [a, b];
  }

  lemma ThreeSteps(s: State, a: Action, b: Action, c: Action)
    requires Enabled(s, a) && Enabled(Next(s, a), b) && Enabled(Next(Next(s, a), b), c)
    ensures Valid(s, [a, b, c]) && After(s, [a, b, c]) == Next(Next(Next(s, a), b), c)
  {
    hide Enabled, Next;
    TwoSteps(Next(s, a), b, c);
    FirstStep(s, a, [b, c]);
    assert [a] + [b, c] == [a, b, c];
  }

  lemma SaveIsInterrupt(s: State, id: RunId)
    requires Safe(s) && id in Recoverable(s.disk)
    ensures Recoverable(s.disk) == {id}
    ensures id in s.disk.runs && RecordOf(s.disk, id).Some?
    ensures SetRecord(s.disk, id, AsInterrupted(RecordOf(s.disk, id).value)).(lock := Absent) == Reconciled(s.disk)
  {
    hide TracesOk, Fresh, BootOk, LockOk, InCut;
    forall other | other in Recoverable(s.disk) ensures other == id {
      AtMostOneRecoverable(s, other, id);
    }
  }

  /** From any disk a crash can leave, the steps of a completed restart make exactly the
      disk that the store's recovery computes. */
  lemma RestartIsReconcile(s: State, todo: seq<RunId>)
    requires Safe(s) && s.mode.Down?
    requires Distinct(todo) && forall id :: id in todo <==> id in Recoverable(s.disk)
    ensures Valid(s, Restart(todo))
    ensures After(s, Restart(todo)) == s.(mode := Serving, disk := Reconciled(s.disk))
  {
    hide Safe, Recoverable, AsInterrupted;
    var booting := Next(s, Boot(todo));
    if todo == [] {
      NothingToRecover(s.disk);
      TwoSteps(s, Boot(todo), BootDone);
    } else {
      var id := todo[0];
      assert id in todo && (|todo| > 1 ==> todo[1] in todo);
      SaveIsInterrupt(s, id);
      assert |todo| == 1;
      ThreeSteps(s, Boot(todo), BootSave, BootDone);
    }
  }

  lemma NothingToRecover(d: Disk)
    requires forall id :: id !in Recoverable(d)
    ensures Reconciled(d) == d
  {
    assert Recoverable(d) == {};
  }

  // ---- what recovery does ----

  /** Recovery marks INTERRUPTED exactly the unfinished runs that fewer than 1000 newer
      records hide, leaves every other record and every log as they were, and frees the lock
      exactly when it was free or it recovered a run. */
  lemma RecoveryOutcome(d: Disk, id: RunId)
    ensures var r := Reconciled(d);
      && RecordOf(r, id) == (if Unfinished(d, id) && |Newer(d, id)| < 1000
                             then Some(RecordOf(d, id).value.(state := Interrupted)) else RecordOf(d, id))
      && EventsOf(r, id) == EventsOf(d, id)
      && r.runs.Keys == d.runs.Keys
    ensures Reconciled(d).lock.Absent?
       <==> d.lock.Absent? || exists other :: Unfinished(d, other) && |Newer(d, other)| < 1000
  {
    hide Newer;
    assert forall other :: other in Recoverable(d) <==> Unfinished(d, other) && |Newer(d, other)| < 1000;
  }

  /** No unfinished run is hidden from recovery by 1000 newer records. */
  ghost predicate NotOvertaken(d: Disk) {
    forall id :: Unfinished(d, id) ==> |Newer(d, id)| < 1000
  }

  function Crashed(s: State, torn: Option<RunId>): State
    requires torn.Some? ==> At(s, torn.value, Executing(false))
  {
    Next(s, Crash(torn))
  }

  lemma CrashKeepsRecords(s: State, torn: Option<RunId>, id: RunId)
    requires torn.Some? ==> At(s, torn.value, Executing(false))
    ensures var d := Crashed(s, torn).disk;
      RecordOf(d, id) == RecordOf(s.disk, id) && d.lock == s.disk.lock && Newer(d, id) == Newer(s.disk, id)
    ensures var after := Crashed(s, torn);
      && after.flights == map[] && after.cancelled == {} && after.checked == {}
      && EventsOf(after.disk, id) == EventsOf(s.disk, id) + if torn == Some(id) then [Torn] else []
  {}

  /** A crash anywhere from the first visible record to the terminal save, then a completed
      recovery: that run is INTERRUPTED, every other record is as it was, the lock is free. */
  lemma CrashWhileGoing(s: State, torn: Option<RunId>, id: RunId, other: RunId)
    requires Safe(s) && (torn.Some? ==> At(s, torn.value, Executing(false)))
    requires id in s.flights && (s.flights[id].Created? || s.flights[id].Executing?)
    requires NotOvertaken(s.disk) && other != id
    ensures var r := Reconciled(Crashed(s, torn).disk);
      && RecordOf(s.disk, id).Some?
      && RecordOf(r, id) == Some(RecordOf(s.disk, id).value.(state := Interrupted))
      && RecordOf(r, other) == RecordOf(s.disk, other)
      && r.lock == Absent
  {
    hide Fresh, BootOk, Newer, Reconciled, LogOk, RecordOk, Crashed;
    RunSafety.TraceAt(s, id);
    assert Unfinished(s.disk, id) && LockOk(s);
    assert !Unfinished(s.disk, other);
    CrashKeepsRecords(s, torn, id);
    CrashKeepsRecords(s, torn, other);
    RecoveryOutcome(Crashed(s, torn).disk, id);
    RecoveryOutcome(Crashed(s, torn).disk, other);
  }

  /** Over all crash points the lock survives a completed recovery exactly when it existed
      with no unfinished record. */
  lemma LockSurvives(s: State, torn: Option<RunId>)
    requires Safe(s) && NotOvertaken(s.disk) && (torn.Some? ==> At(s, torn.value, Executing(false)))
    ensures !Reconciled(Crashed(s, torn).disk).lock.Absent?
       <==> !s.disk.lock.Absent? && forall id :: !Unfinished(s.disk, id)
  {
    hide Safe, Newer, Reconciled, Crashed;
    var d := Crashed(s, torn).disk;
    forall id ensures RecordOf(d, id) == RecordOf(s.disk, id) && Newer(d, id) == Newer(s.disk, id) {
      CrashKeepsRecords(s, torn, id);
    }
    CrashKeepsRecords(s, torn, 0);
    assert forall id :: Unfinished(d, id) <==> Unfinished(s.disk, id);
    RecoveryOutcome(d, 0);
  }
}
