/** Every reachable state is safe, and what that means for the lock and the records. */
module RunSafety {
  import opened Wrappers
  import opened RunStore
  import opened RunProtocol
  import Progress

  lemma StepKeepsFresh(s: State, a: Action)
    requires Safe(s) && Enabled(s, a)
    ensures Fresh(Next(s, a))
    ensures Next(s, a).cancelled <= Next(s, a).asked
  {
    hide TracesOk, LockOk, Unfinished, InCut, Recoverable;
  }

  /** The steps that change which records are unfinished: creation, the terminal save and
      the saves of recovery. */
  predicate Closes(s: State, a: Action, id: RunId) {
    (a.Finish? && a.id == id) || (a.BootSave? && s.mode.Booting? && s.mode.todo != [] && s.mode.todo[0] == id)
  }

  /** Whose trace a step may change; a crash also ends every flight. */
  ghost predicate Touches(s: State, a: Action, id: RunId) {
    match a
    case ChooseId => id == s.clock
    case CheckCancel(_) | Cancel(_) | Boot(_) | BootDone => false
    case Crash(torn) => torn == Some(id)
    case BootSave => s.mode.Booting? && s.mode.todo != [] && s.mode.todo[0] == id
    case _ => a.id == id
  }

  lemma RecordUntouched(s: State, a: Action, id: RunId)
    requires Enabled(s, a) && !Touches(s, a, id)
    ensures RecordOf(Next(s, a).disk, id) == RecordOf(s.disk, id)
    ensures EventsOf(Next(s, a).disk, id) == EventsOf(s.disk, id)
  {
    hide Enabled, Next, Touches;
    DirUntouched(s, a, id);
  }

  lemma UnfinishedAfter(s: State, a: Action, id: RunId)
    requires Safe(s) && Enabled(s, a)
    ensures Unfinished(Next(s, a).disk, id) <==>
              (Unfinished(s.disk, id) && !Closes(s, a, id)) || (a.Create? && a.id == id)
  {
    hide LockOk, BootOk, Recoverable, HistoryOf, RecordOk, LogOk;
    if !Touches(s, a, id) {
      RecordUntouched(s, a, id);
    } else {
      assert TraceOk(s, id);
    }
  }

  lemma ReleasedIsFinished(s: State, id: RunId)
    requires Safe(s) && id in s.flights && s.flights[id].Releasing?
    ensures !Unfinished(s.disk, id)
  {
    hide LockOk, BootOk, RecordOk, LogOk;
    assert TraceOk(s, id);
  }

  lemma StepKeepsExclusive(s: State, a: Action)
    requires Safe(s) && Enabled(s, a)
    ensures Exclusive(Next(s, a))
  {
    hide TracesOk, UnfinishedNamed, Unfinished, Recoverable, BootOk, HistoryOf, Logged, SetRecord, Recorded, Ended,
      FinalHistory;
  }

  /** What a step makes of the lock file. */
  lemma LockAfter(s: State, a: Action)
    requires Enabled(s, a)
    ensures Next(s, a).disk.lock ==
              match a
              case Open(_) => Empty
              case WriteId(id) => Holds(id)
              case Unlink(id) => if s.flights[id].holder in {Some(id), None} then Absent else s.disk.lock
              case BootDone => if s.mode.recovered then Absent else s.disk.lock
              case _ => s.disk.lock
  {
    hide Recoverable, Unfinished, Distinct, Ended, FinalHistory, AsInterrupted, HistoryOf, Progress.Fold;
  }

  lemma StepKeepsLocksFit(s: State, a: Action)
    requires Safe(s) && Enabled(s, a)
    ensures LocksFit(Next(s, a))
  {
    hide TracesOk, UnfinishedNamed, Unfinished, Recoverable, BootOk, HistoryOf, Logged, SetRecord, Recorded, Ended,
      FinalHistory, Appended;
    LockAfter(s, a);
  }

  lemma StepKeepsNamed(s: State, a: Action)
    requires Safe(s) && Enabled(s, a)
    ensures UnfinishedNamed(Next(s, a).disk)
  {
    hide TracesOk, Unfinished, Recoverable, HistoryOf;
    var t := Next(s, a);
    forall id
      ensures Unfinished(t.disk, id) <==>
                (Unfinished(s.disk, id) && !Closes(s, a, id)) || (a.Create? && a.id == id)
    {
      UnfinishedAfter(s, a, id);
    }
    if a.Unlink? {
      ReleasedIsFinished(s, a.id);
    }
  }

  lemma StepKeepsBoot(s: State, a: Action)
    requires Safe(s) && Enabled(s, a)
    ensures BootOk(Next(s, a))
  {
    hide TracesOk, Unfinished, HistoryOf, InCut, Visible;
    var t := Next(s, a);
    forall id
      ensures Unfinished(t.disk, id) <==>
                (Unfinished(s.disk, id) && !Closes(s, a, id)) || (a.Create? && a.id == id)
    {
      UnfinishedAfter(s, a, id);
    }
    if a.BootSave? {
      var todo := s.mode.todo;
      assert todo[0] in todo;
      forall id | id in t.mode.todo ensures id in todo && id != todo[0] {
        var k :| 0 <= k < |t.mode.todo| && t.mode.todo[k] == id;
        assert todo[k + 1] == id;
      }
    } else if a.Boot? {
      forall id | id in a.todo ensures Unfinished(s.disk, id) {
        assert id in Recoverable(s.disk);
      }
    }
  }

  // ---- traces ----

  lemma DirUntouched(s: State, a: Action, id: RunId)
    requires Enabled(s, a) && !Touches(s, a, id)
    ensures DirOf(Next(s, a).disk, id) == DirOf(s.disk, id)
  {
    hide Recoverable, Unfinished, Distinct, Ended, FinalHistory, AsInterrupted, HistoryOf, Progress.Fold;
  }

  lemma FlightUntouched(s: State, a: Action, id: RunId)
    requires Enabled(s, a) && !Touches(s, a, id)
    ensures var t := Next(s, a);
      && HistoryOf(t, id) == HistoryOf(s, id)
      && (id in t.flights ==> id in s.flights && t.flights[id] == s.flights[id])
      && t.replay == s.replay && (id in s.asked ==> id in t.asked)
  {
    hide Recoverable, Unfinished, Distinct, Ended, FinalHistory, AsInterrupted, Logged, SetRecord, Appended, Recorded;
  }

  lemma TraceUntouched(s: State, a: Action, id: RunId)
    requires Safe(s) && Enabled(s, a) && !Touches(s, a, id)
    ensures TraceOk(Next(s, a), id)
  {
    hide Enabled, Next, Touches, LockOk, BootOk, RecordOk, LogOk, PhaseFits, Fresh, TracesOk;
    DirUntouched(s, a, id);
    FlightUntouched(s, a, id);
    TraceAt(s, id);
    RecordOkMonotone(s, Next(s, a), id);
  }

  lemma RecordOkMonotone(s: State, t: State, id: RunId)
    requires t.replay == s.replay && (id in s.asked ==> id in t.asked)
    ensures forall r, h :: RecordOk(id, r, h, s.replay, id in s.asked) ==> RecordOk(id, r, h, t.replay, id in t.asked)
  {}

  lemma ReadableAppend(events: seq<Line>, line: Line, offset: nat)
    ensures Readable(events + [line], offset) ==
              Readable(events, offset) + if |events| < offset || line.Torn? then [] else [line.summary]
  {
    assert (events + [line])[..|events|] == events;
  }

  lemma FoldAppend(seen: seq<Progress.Event>, event: Progress.Event)
    ensures Progress.Summaries(seen + [event]) ==
              Progress.Summaries(seen) +
              (if Progress.Summarise(event).Some? then [Progress.Summarise(event).value] else [])
    ensures Progress.Fold(seen + [event]) == Progress.Apply(Progress.Fold(seen), event)
  {
    assert (seen + [event])[..|seen|] == seen;
  }

  lemma TornLogOk(events: seq<Line>, h: History)
    requires LogOk(events, h) && forall i :: 0 <= i < |events| ==> events[i].Whole?
    ensures LogOk(events + [Torn], h)
  {
    ReadableAppend(events, Torn, 0);
  }

  lemma NothingLogged()
    ensures LogOk([], NO_HISTORY)
    ensures Progress.Fold(NO_HISTORY.seen[..NO_HISTORY.saved]) == Progress.NOTHING
  {}

  /** Steps that only move a launch from phase to phase. */
  lemma TraceMoves(s: State, a: Action)
    requires Safe(s) && Enabled(s, a)
    requires a.ChooseId? || a.Open? || a.Refuse? || a.WriteId? || a.WriteFails? || a.Strand? || a.ReadHolder?
          || a.Unlink?
    ensures TraceOk(Next(s, a), if a.ChooseId? then s.clock else a.id)
  {
    hide LockOk, BootOk, RecordOk, LogOk, Recoverable;
    assert TraceOk(s, if a.ChooseId? then s.clock else a.id);
  }

  lemma TraceCreation(s: State, a: Action)
    requires Safe(s) && Enabled(s, a)
    requires a.Create? || a.CreateFails? || a.SaveRunning?
    ensures TraceOk(Next(s, a), a.id)
  {
    hide LockOk, BootOk, Recoverable, TracesOk, LogOk;
    assert TraceOk(s, a.id) by {
      assert TracesOk(s);
      TraceAt(s, a.id);
    }
    NothingLogged();
  }

  lemma TraceAt(s: State, id: RunId)
    requires TracesOk(s)
    ensures TraceOk(s, id)
  {
    hide TraceOk;
  }

  lemma TraceAppend(s: State, a: Action)
    requires Safe(s) && Enabled(s, a) && a.Append?
    ensures TraceOk(Next(s, a), a.id)
  {
    hide LockOk, BootOk, Recoverable, TracesOk, Progress.Fold, Progress.Summaries, Readable;
    TraceAt(s, a.id);
    var h, events := HistoryOf(s, a.id), s.disk.runs[a.id].events;
    var h' := HistoryOf(Next(s, a), a.id);
    FoldAppend(h.seen, a.event);
    assert h.seen[..h.logged] == h.seen && h'.seen[..h'.logged] == h'.seen;
    assert h'.seen[..h'.saved] == h.seen[..h.saved];
    if Progress.Summarise(a.event).Some? {
      ReadableAppend(events, Whole(Progress.Summarise(a.event).value), 0);
    }
  }

  lemma TraceSave(s: State, a: Action)
    requires Safe(s) && Enabled(s, a) && a.SaveProgress?
    ensures TraceOk(Next(s, a), a.id)
  {
    hide LockOk, BootOk, Recoverable, TracesOk, Progress.Fold, Progress.Summaries, Readable;
    TraceAt(s, a.id);
    var h := HistoryOf(s, a.id);
    assert h.seen[..|h.seen|] == h.seen;
  }

  lemma TraceFinish(s: State, a: Action)
    requires Safe(s) && Enabled(s, a) && a.Finish?
    ensures TraceOk(Next(s, a), a.id)
  {
    hide LockOk, BootOk, Recoverable, TracesOk, Progress.Fold, Progress.Summaries, Readable, LogOk;
    TraceAt(s, a.id);
    var h, events := HistoryOf(s, a.id), s.disk.runs[a.id].events;
    var h' := FinalHistory(h, a.ending);
    assert h'.seen[..h'.saved] == h'.seen;
    assert LogOk(events, h') by {
      LogOkExtends(events, h, h');
    }
    TornLogOk(events, h');
  }

  lemma LogOkExtends(events: seq<Line>, h: History, longer: History)
    requires LogOk(events, h) && h.seen <= longer.seen && longer.logged == h.logged
    ensures LogOk(events, longer)
  {
    hide Readable, Progress.Summaries;
    assert longer.seen[..h.logged] == h.seen[..h.logged];
  }

  lemma TraceCrash(s: State, a: Action)
    requires Safe(s) && Enabled(s, a) && a.Crash? && a.torn.Some?
    ensures TraceOk(Next(s, a), a.torn.value)
  {
    hide LockOk, BootOk, Recoverable, TracesOk, Progress.Fold, Progress.Summaries, Readable, LogOk;
    TraceAt(s, a.torn.value);
    TornLogOk(s.disk.runs[a.torn.value].events, HistoryOf(s, a.torn.value));
  }

  lemma TraceStranded(s: State, a: Action)
    requires Safe(s) && Enabled(s, a) && a.StrandTorn?
    ensures TraceOk(Next(s, a), a.id)
  {
    hide LockOk, BootOk, Recoverable, TracesOk, Progress.Fold, Progress.Summaries, Readable, LogOk;
    TraceAt(s, a.id);
    TornLogOk(s.disk.runs[a.id].events, HistoryOf(s, a.id));
  }

  lemma TraceBoot(s: State, a: Action)
    requires Safe(s) && Enabled(s, a) && a.BootSave?
    ensures TraceOk(Next(s, a), s.mode.todo[0])
  {
    hide LockOk, Recoverable, TracesOk, Progress.Fold, Progress.Summaries, Readable, LogOk;
    TraceAt(s, s.mode.todo[0]);
    assert s.mode.todo[0] in s.mode.todo;
  }

  lemma StepKeepsTraces(s: State, a: Action)
    requires Safe(s) && Enabled(s, a)
    ensures TracesOk(Next(s, a))
  {
    hide TraceOk, Safe, Enabled;
    forall id ensures TraceOk(Next(s, a), id) {
      if !Touches(s, a, id) {
        TraceUntouched(s, a, id);
      } else {
        match a
        case Create(_, _, _) | CreateFails(_, _) | SaveRunning(_) => TraceCreation(s, a);
        case Append(_, _) => TraceAppend(s, a);
        case SaveProgress(_) => TraceSave(s, a);
        case Finish(_, _) => TraceFinish(s, a);
        case StrandTorn(_) => TraceStranded(s, a);
        case Crash(_) => TraceCrash(s, a);
        case BootSave => TraceBoot(s, a);
        case _ => TraceMoves(s, a);
      }
    }
  }

  lemma StartIsSafe(replay: bool)
    ensures Safe(Start(replay))
  {}

  lemma StepKeepsSafe(s: State, a: Action)
    requires Safe(s) && Enabled(s, a)
    ensures Safe(Next(s, a))
  {
    hide Fresh, LockOk, BootOk, TracesOk, Enabled, Next;
    StepKeepsFresh(s, a);
    StepKeepsExclusive(s, a);
    StepKeepsLocksFit(s, a);
    StepKeepsNamed(s, a);
    StepKeepsBoot(s, a);
    StepKeepsTraces(s, a);
    LockParts(Next(s, a));
  }

  lemma LockParts(s: State)
    requires Exclusive(s) && LocksFit(s) && UnfinishedNamed(s.disk)
    ensures LockOk(s)
  {}

  /** Every state of every execution is safe. */
  lemma {:induction false} RunsKeepSafe(s: State, actions: seq<Action>)
    requires Safe(s) && Valid(s, actions)
    ensures Safe(After(s, actions))
    decreases |actions|
  {
    hide Safe, Enabled, Next;
    if actions != [] {
      StepKeepsSafe(s, actions[0]);
      RunsKeepSafe(Next(s, actions[0]), actions[1..]);
    }
  }
}
