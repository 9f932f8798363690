/** An execution in which recovery misses an unfinished run. */
module RunOvertaken {
  import opened Wrappers
  import opened RunStore
  import opened RunProtocol
  import opened RunRecovery
  import opened RunRefinement
  import Progress

  const REQUEST := Request("seapath_setup_main", false, "alice")
  const OUTCOME := RunOutcome(Some(2), false, Some("unreachable"))

  function FailedRun(id: RunId): RunDir {
    RunDir(Some(RunRecord(id, REQUEST, Failed, Some(2), Progress.NOTHING)), [], "")
  }

  /** The state once a whole run of the next id went through. */
  function OneMore(s: State): State {
    s.(clock := s.clock + 1,
       disk := Disk(Absent, s.disk.runs[s.clock := FailedRun(s.clock)]),
       histories := s.histories[s.clock := NO_HISTORY])
  }

  lemma WholeRun(s0: State, s: State)
    requires Reaches(s0, s) && Idle(s)
    ensures Reaches(s0, OneMore(s))
  {
    hide Reaches;
    var t := LaunchHalf(s0, s, REQUEST, "");
    var u := EndHalf(s0, t, s.clock, Returned(OUTCOME));
    assert s.cancelled - {s.clock} == s.cancelled;
    assert u.flights == s.flights;
    assert u.disk.runs == OneMore(s).disk.runs;
    assert u == OneMore(s);
  }

  function UpTo(k: nat): (ids: set<RunId>)
    ensures |ids| == k && forall i :: i in ids <==> 1 <= i <= k
  {
    if k == 0 then {} else UpTo(k - 1) + {k}
  }

  /** A launch holds the first id and waits, while the next `k` runs go through. */
  function Waiting0(replay: bool, k: nat): State {
    State(replay, Disk(Absent, map i | i in UpTo(k) :: FailedRun(i)), Serving, k + 1,
          map[0 := Waiting], {}, {}, map i | i in UpTo(k) :: NO_HISTORY, {})
  }

  lemma FirstLaunchWaits(replay: bool)
    ensures Reaches(Start(replay), Waiting0(replay, 0))
  {
    var s0 := Start(replay);
    assert Recoverable(s0.disk) == {};
    TwoSteps(s0, Boot([]), BootDone);
    var booted := Next(Next(s0, Boot([])), BootDone);
    assert Reaches(s0, booted);
    ReachStep(s0, booted, ChooseId);
    assert Next(booted, ChooseId) == Waiting0(replay, 0);
  }

  lemma {:induction false} OvertakenBy(replay: bool, k: nat)
    ensures Reaches(Start(replay), Waiting0(replay, k))
  {
    var s0 := Start(replay);
    if k == 0 {
      FirstLaunchWaits(replay);
    } else {
      hide Reaches, OneMore;
      OvertakenBy(replay, k - 1);
      WholeRun(s0, Waiting0(replay, k - 1));
      SameWaiting(replay, k);
    }
  }

  lemma SameWaiting(replay: bool, k: nat)
    requires k > 0
    ensures OneMore(Waiting0(replay, k - 1)) == Waiting0(replay, k)
  {
    var a, b := OneMore(Waiting0(replay, k - 1)), Waiting0(replay, k);
    assert a.disk.runs == b.disk.runs;
    assert a.histories == b.histories;
  }

  /** The launch that waited takes the lock, its record appears, and the machine goes down. */
  function Left(replay: bool, k: nat): State {
    var s, record := Waiting0(replay, k), RunRecord(0, REQUEST, Pending, None, Progress.NOTHING);
    s.(mode := Down, flights := map[], disk := Disk(Holds(0), s.disk.runs[0 := RunDir(Some(record), [], "")]))
  }

  lemma LeftReached(replay: bool, k: nat)
    ensures Reaches(Start(replay), Left(replay, k))
  {
    hide Reaches;
    var s0 := Start(replay);
    OvertakenBy(replay, k);
    var s := Waiting0(replay, k);
    var t := TakeLock(s0, s, 0);
    ReachStep(s0, t, Create(0, REQUEST, ""));
    t := Next(t, Create(0, REQUEST, ""));
    ReachStep(s0, t, Crash(None));
    t := Next(t, Crash(None));
    assert t.disk.runs == Left(replay, k).disk.runs;
    assert t == Left(replay, k);
  }

  lemma HiddenByAll(replay: bool, k: nat)
    ensures Newer(Left(replay, k).disk, 0) == UpTo(k)
  {
    hide UpTo;
  }

  /** An execution reaches a crash after which a completed restart misses an unfinished run:
      the record stays pending and its lock stays. */
  lemma OvertakenRunIsMissed(replay: bool)
    ensures exists s :: Reaches(Start(replay), s) && s.mode.Down? && Valid(s, Restart([]))
                     && After(s, Restart([])).mode.Serving?
                     && Unfinished(After(s, Restart([])).disk, 0)
                     && After(s, Restart([])).disk.lock == Holds(0)
  {
    var s := Left(replay, RECONCILE_LIMIT);
    LeftReached(replay, RECONCILE_LIMIT);
    RestartMisses(replay);
  }

  lemma RestartMisses(replay: bool)
    ensures var s := Left(replay, RECONCILE_LIMIT);
            Valid(s, Restart([])) && After(s, Restart([])) == s.(mode := Serving)
  {
    hide Reaches, UpTo, Newer;
    var s := Left(replay, RECONCILE_LIMIT);
    HiddenByAll(replay, RECONCILE_LIMIT);
    NothingRecoverable(s.disk);
    TwoSteps(s, Boot([]), BootDone);
  }

  lemma NothingRecoverable(d: Disk)
    requires |Newer(d, 0)| >= RECONCILE_LIMIT
    requires forall id :: id in d.runs && id != 0 ==> d.runs[id] == FailedRun(id)
    ensures Recoverable(d) == {}
  {
    hide Newer;
  }
}
