/** Run artefacts on disk: the lock file, one directory a run, and recovery at start. */
module RunStore {
  import opened Wrappers
  import Progress
  import Sorting

  /** The instant a run was asked for; later runs have greater ids. */
  type RunId = nat

  datatype RunState = Pending | Running | Success | Failed | Cancelled | Interrupted {
    predicate Finished() {
      !Pending? && !Running?
    }
  }

  datatype Request = Request(playbook: string, check: bool, launchedBy: string)

  datatype RunRecord = RunRecord(
    id: RunId, request: Request, state: RunState, returnCode: Option<int>, progress: Progress.Snapshot)

  /** A line of the event log: a whole event, or one half written when the machine went down. */
  datatype Line = Whole(summary: Progress.Summary) | Torn

  /** `record` is `None` until `run.json` is first visible. */
  datatype RunDir = RunDir(record: Option<RunRecord>, events: seq<Line>, inventory: string)

  /** The lock file: created empty, then holding a run's id. */
  datatype Lock = Absent | Empty | Holds(id: RunId)

  datatype Disk = Disk(lock: Lock, runs: map<RunId, RunDir>)

  const RECONCILE_LIMIT: nat := 1000

  // ---- what is on disk ----

  function RecordOf(d: Disk, id: RunId): Option<RunRecord> {
    if id in d.runs then d.runs[id].record else None
  }

  function EventsOf(d: Disk, id: RunId): seq<Line> {
    if id in d.runs then d.runs[id].events else []
  }

  function Visible(d: Disk): set<RunId> {
    set id | id in d.runs && d.runs[id].record.Some?
  }

  predicate Unfinished(d: Disk, id: RunId) {
    RecordOf(d, id).Some? && !RecordOf(d, id).value.state.Finished()
  }

  function Newer(d: Disk, id: RunId): set<RunId> {
    set other | other in Visible(d) && other > id
  }

  /** Whether `list(limit)` reaches the run: fewer than `limit` records have a greater id. */
  predicate InCut(d: Disk, id: RunId, limit: nat) {
    id in Visible(d) && |Newer(d, id)| < limit
  }

  function HolderOf(lock: Lock): Option<RunId> {
    if lock.Holds? then Some(lock.id) else None
  }

  // ---- what the operations make of it ----

  function Saved(d: Disk, record: RunRecord): Disk
    requires record.id in d.runs
  {
    d.(runs := d.runs[record.id := d.runs[record.id].(record := Some(record))])
  }

  function Recorded(d: Disk, record: RunRecord, inventory: string): Disk {
    d.(runs := d.runs[record.id := RunDir(Some(record), EventsOf(d, record.id), inventory)])
  }

  /** What a creation that raised leaves: at most an empty directory. */
  function Uncreated(d: Disk, id: RunId, directoryMade: bool): Disk {
    if directoryMade && id !in d.runs then d.(runs := d.runs[id := RunDir(None, [], "")]) else d
  }

  function Appended(d: Disk, id: RunId, line: Line): Disk
    requires id in d.runs
  {
    d.(runs := d.runs[id := d.runs[id].(events := d.runs[id].events + [line])])
  }

  function Released(d: Disk, id: RunId): Disk {
    if HolderOf(d.lock) in {Some(id), None} then d.(lock := Absent) else d
  }

  function AsInterrupted(record: RunRecord): RunRecord {
    record.(state := Interrupted)
  }

  function InterruptAll(runs: map<RunId, RunDir>, hit: set<RunId>): map<RunId, RunDir> {
    map id | id in runs ::
      if id in hit && runs[id].record.Some? then runs[id].(record := Some(AsInterrupted(runs[id].record.value)))
      else runs[id]
  }

  function Recoverable(d: Disk): set<RunId> {
    set id | id in Visible(d) && InCut(d, id, RECONCILE_LIMIT) && Unfinished(d, id)
  }

  /** The disk after a completed recovery. */
  function Reconciled(d: Disk): Disk {
    Disk(if Recoverable(d) == {} then d.lock else Absent, InterruptAll(d.runs, Recoverable(d)))
  }

  /** The events a reader that starts at a line number gets. */
  function Readable(lines: seq<Line>, offset: nat): seq<Progress.Summary>
    decreases |lines|
  {
    if lines == [] then []
    else
      var last := lines[|lines| - 1];
      Readable(lines[..|lines| - 1], offset) +
      if |lines| - 1 < offset || last.Torn? then [] else [last.summary]
  }

  /** Every record lies in the directory of its own id. */
  ghost predicate WellNamed(d: Disk) {
    forall id :: id in d.runs && d.runs[id].record.Some? ==> d.runs[id].record.value.id == id
  }

  // ---- listing ----

  predicate Later(a: RunId, b: RunId) {
    a > b
  }

  ghost predicate IsListing(d: Disk, limit: nat, ids: seq<RunId>) {
    && Sorting.Ascending(Later, ids)
    && forall id :: id in ids <==> InCut(d, id, limit)
  }

  function Elements(ids: seq<RunId>): set<RunId> {
    set id | id in ids
  }

  lemma FreshInListing(ids: seq<RunId>, i: nat)
    requires Sorting.Ascending(Later, ids) && i < |ids|
    ensures ids[i] !in ids[..i]
  {
    forall k | 0 <= k < i ensures ids[k] != ids[i] {
      assert Later(ids[k], ids[i]);
    }
  }

  lemma ElementsAppend(ids: seq<RunId>, id: RunId)
    requires id !in ids
    ensures |Elements(ids + [id])| == |Elements(ids)| + 1
  {
    assert Elements(ids + [id]) == Elements(ids) + {id};
  }

  lemma {:induction false} DistinctCount(ids: seq<RunId>, n: nat)
    requires Sorting.Ascending(Later, ids) && n <= |ids|
    ensures |Elements(ids[..n])| == n
  {
    if n == 0 {
      assert Elements(ids[..n]) == {};
    } else {
      hide Elements, Sorting.Ascending, Later;
      DistinctCount(ids, n - 1);
      FreshInListing(ids, n - 1);
      ElementsAppend(ids[..n - 1], ids[n - 1]);
      assert ids[..n] == ids[..n - 1] + [ids[n - 1]];
    }
  }

  /** In the descending sequence of all visible runs, a run's position counts the newer ones. */
  lemma PositionCountsNewer(d: Disk, ids: seq<RunId>, i: nat)
    requires Sorting.Ascending(Later, ids) && i < |ids|
    requires forall id :: id in ids <==> id in Visible(d)
    ensures |Newer(d, ids[i])| == i
  {
    hide Visible;
    var before := ids[..i];
    forall id ensures id in Newer(d, ids[i]) <==> id in before {
      if id in Newer(d, ids[i]) {
        var k :| 0 <= k < |ids| && ids[k] == id;
        assert k < i || k == i || Later(ids[i], ids[k]);
      }
      if id in before {
        var k :| 0 <= k < i && before[k] == id;
        assert Later(ids[k], ids[i]) && ids[k] in ids;
      }
    }
    DistinctCount(ids, i);
    assert Newer(d, ids[i]) == Elements(before);
  }

  lemma TruncatedIsListing(d: Disk, limit: nat, ids: seq<RunId>)
    requires Sorting.Ascending(Later, ids)
    requires forall id :: id in ids <==> id in Visible(d)
    ensures IsListing(d, limit, if |ids| <= limit then ids else ids[..limit])
  {
    hide Visible, Newer;
    var cut := if |ids| <= limit then ids else ids[..limit];
    forall id ensures id in cut <==> InCut(d, id, limit) {
      if id in ids {
        var k :| 0 <= k < |ids| && ids[k] == id;
        PositionCountsNewer(d, ids, k);
        if k < |cut| {
          assert cut[k] == id;
        }
        if id in cut {
          var j :| 0 <= j < |cut| && cut[j] == id;
          PositionCountsNewer(d, ids, j);
        }
      } else {
        assert id !in cut;
      }
    }
  }

  // ---- the store ----

  /** The lock is there already, or it was created and the id could not be written into it. */
  datatype AcquireError = RunLocked(holder: Option<RunId>) | IdNotWritten

  class RunStore {
    var lock: Lock
    var runs: map<RunId, RunDir>

    constructor (d: Disk)
      ensures Value() == d
    {
      lock, runs := d.lock, d.runs;
    }

    function Value(): Disk
      reads this
    {
      Disk(lock, runs)
    }

    /** Exclusive creation, then the id is written, if the disk lets it. */
    method Acquire(id: RunId, written: bool) returns (r: Result<(), AcquireError>)
      modifies `lock
      ensures r.Ok? <==> old(lock).Absent? && written
      ensures !old(lock).Absent? ==> r == Err(RunLocked(HolderOf(old(lock)))) && Value() == old(Value())
      ensures old(lock).Absent? ==> Value() == old(Value()).(lock := if written then Holds(id) else Empty)
      ensures old(lock).Absent? && !written ==> r == Err(IdNotWritten)
    {
      if !lock.Absent? {
        var holder := LockHolder();
        return Err(RunLocked(holder));
      }
      lock := Empty;
      if !written {
        return Err(IdNotWritten);
      }
      lock := Holds(id);
      r := Ok(());
    }

    method LockHolder() returns (holder: Option<RunId>)
      ensures holder == HolderOf(lock)
    {
      holder := if lock.Holds? then Some(lock.id) else None;
    }

    method Release(id: RunId)
      modifies `lock
      ensures Value() == Released(old(Value()), id)
      ensures lock == if old(lock).Holds? && old(lock).id != id then old(lock) else Absent
      ensures runs == old(runs)
    {
      var holder := LockHolder();
      if holder == Some(id) || holder == None {
        lock := Absent;
      }
    }

    method Create(record: RunRecord, inventory: string)
      modifies `runs
      ensures Value() == Recorded(old(Value()), record, inventory)
      ensures RecordOf(Value(), record.id) == Some(record) && runs[record.id].inventory == inventory
      ensures EventsOf(Value(), record.id) == old(EventsOf(Value(), record.id)) && lock == old(lock)
      ensures forall other :: other in runs && other != record.id ==>
                other in old(runs) && runs[other] == old(runs)[other]
      ensures runs.Keys == old(runs).Keys + {record.id}
    {
      var id := record.id;
      if id !in runs {
        runs := runs[id := RunDir(None, [], inventory)];
      }
      runs := runs[id := runs[id].(inventory := inventory)];
      Save(record);
    }

    /** Written beside the target and renamed over it, so the record is never partial. */
    method Save(record: RunRecord)
      requires record.id in runs
      modifies `runs
      ensures Value() == Saved(old(Value()), record)
      ensures lock == old(lock) && RecordOf(Value(), record.id) == Some(record)
      ensures runs == old(runs)[record.id := old(runs)[record.id].(record := Some(record))]
    {
      runs := runs[record.id := runs[record.id].(record := Some(record))];
    }

    method Load(id: RunId) returns (record: Option<RunRecord>)
      ensures record == RecordOf(Value(), id)
    {
      record := if id in runs then runs[id].record else None;
    }

    /** The newest records first, at most `limit` of them. */
    method List(limit: nat) returns (ids: seq<RunId>)
      requires WellNamed(Value())
      ensures IsListing(Value(), limit, ids)
    {
      hide Sorting.SortUnique, InCut, Newer;
      var left, found: seq<RunId> := runs.Keys, [];
      while left != {}
        invariant left <= runs.Keys
        invariant forall id :: id in found <==> id in runs.Keys - left && runs[id].record.Some?
        decreases left
      {
        var id :| id in left;
        var record := Load(id);
        if record.Some? {
          found := found + [id];
        }
        left := left - {id};
      }
      Sorting.SortUniqueCorrect(Later, found);
      ids := Sorting.SortUnique(Later, found);
      TruncatedIsListing(Value(), limit, ids);
      if |ids| > limit {
        ids := ids[..limit];
      }
    }

    method AppendEvent(id: RunId, summary: Progress.Summary)
      requires id in runs
      modifies `runs
      ensures Value() == Appended(old(Value()), id, Whole(summary))
      ensures lock == old(lock) && runs.Keys == old(runs).Keys
      ensures EventsOf(Value(), id) == old(EventsOf(Value(), id)) + [Whole(summary)]
      ensures RecordOf(Value(), id) == old(RecordOf(Value(), id))
    {
      runs := runs[id := runs[id].(events := runs[id].events + [Whole(summary)])];
    }

    /** An append that raises, with or without a part of the line on disk. */
    method FailToAppend(id: RunId, torn: bool)
      requires id in runs
      modifies `runs
      ensures Value() == if torn then Appended(old(Value()), id, Torn) else old(Value())
    {
      if torn {
        runs := runs[id := runs[id].(events := runs[id].events + [Torn])];
      }
    }

    /** A creation that raises, with or without the run's directory made. */
    method FailToCreate(id: RunId, directoryMade: bool)
      modifies `runs
      ensures Value() == Uncreated(old(Value()), id, directoryMade)
    {
      if directoryMade && id !in runs {
        runs := runs[id := RunDir(None, [], "")];
      }
    }

    /** Events from a line number on; a line that is not whole is passed over. */
    method Events(id: RunId, offset: nat) returns (out: seq<Progress.Summary>)
      ensures out == Readable(EventsOf(Value(), id), offset)
    {
      out := [];
      if id !in runs {
        return;
      }
      var lines := runs[id].events;
      for index := 0 to |lines|
        invariant out == Readable(lines[..index], offset)
      {
        assert lines[..index + 1][..index] == lines[..index];
        if index < offset {
          continue;
        }
        if lines[index].Whole? {
          out := out + [lines[index].summary];
        }
      }
      assert lines[..|lines|] == lines;
    }

    /** Close out the runs the service was in the middle of when it died. */
    method Reconcile() returns (recovered: seq<RunId>)
      requires WellNamed(Value())
      modifies this
      ensures Value() == Reconciled(old(Value()))
      ensures forall id :: id in recovered <==> id in Recoverable(old(Value()))
    {
      hide InCut, Newer;
      ghost var d := Value();
      recovered := [];
      var listed := List(RECONCILE_LIMIT);
      ghost var hit: set<RunId> := {};
      InterruptNone(runs);
      for i := 0 to |listed|
        invariant lock == d.lock && runs == InterruptAll(d.runs, hit)
        invariant hit == set id | id in listed[..i] && Unfinished(d, id)
        invariant forall id :: id in recovered <==> id in hit
      {
        var id := listed[i];
        assert id in listed && InCut(d, id, RECONCILE_LIMIT);
        InCutVisible(d, id);
        assert listed[..i + 1] == listed[..i] + [id];
        var record := runs[id].record.value;
        FreshInListing(listed, i);
        if record.state != Pending && record.state != Running {
          continue;
        }
        InterruptOneMore(d.runs, hit, id);
        Save(record.(state := Interrupted));
        hit := hit + {id};
        recovered := recovered + [id];
      }
      assert listed[..|listed|] == listed;
      assert hit == Recoverable(d);
      if recovered != [] {
        assert recovered[0] in hit;
        lock := Absent;
      } else {
        assert hit == {};
      }
    }
  }

  lemma InterruptNone(runs: map<RunId, RunDir>)
    ensures InterruptAll(runs, {}) == runs
  {}

  lemma InCutVisible(d: Disk, id: RunId)
    requires InCut(d, id, RECONCILE_LIMIT)
    ensures id in d.runs && d.runs[id].record.Some?
  {}

  lemma InterruptOneMore(runs: map<RunId, RunDir>, hit: set<RunId>, id: RunId)
    requires id in runs && runs[id].record.Some? && id !in hit
    ensures InterruptAll(runs, hit + {id}) ==
              InterruptAll(runs, hit)[id := runs[id].(record := Some(AsInterrupted(runs[id].record.value)))]
  {}
}
