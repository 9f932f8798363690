/** The event stream of one run: a tail reader that can be resumed by line number, beside
    every step of the run protocol. */
module EventStream {
  import opened Wrappers
  import opened RunStore
  import opened RunProtocol
  import RunSafety
  import RunLifecycle
  import Progress

  type Sent = (nat, Progress.Summary)

  function Tagged(events: seq<Progress.Summary>, first: nat): seq<Sent> {
    seq(|events|, i requires 0 <= i < |events| => (first + i, events[i]))
  }

  // ---- the reader ----

  class StreamReader {
    const run: RunId
    var index: nat
    var sent: seq<Sent>

    constructor (run: RunId, offset: nat)
      ensures this.run == run && index == offset && sent == []
    {
      this.run, index, sent := run, offset, [];
    }

    /** One pass over the log: every event from the current index on, each under its number. */
    method Scan(store: RunStore)
      modifies this
      ensures var events := Readable(EventsOf(store.Value(), run), old(index));
              sent == old(sent) + Tagged(events, old(index)) && index == old(index) + |events|
    {
      var events := store.Events(run, index);
      for i := 0 to |events|
        invariant index == old(index) + i
        invariant sent == old(sent) + Tagged(events[..i], old(index))
      {
        sent := sent + [(index, events[i])];
        index := index + 1;
      }
      assert events[..|events|] == events;
    }

    /** The check after a pass: a finished run's state is the last thing sent. */
    method Verdict(store: RunStore) returns (verdict: Option<RunState>)
      ensures var record := RecordOf(store.Value(), run);
              verdict == if record.Some? && record.value.state.Finished() then Some(record.value.state) else None
    {
      var record := store.Load(run);
      verdict := if record.Some? && record.value.state.Finished() then Some(record.value.state) else None;
    }
  }

  // ---- a client, over any number of connections ----

  /** `received` is what the client got since it first connected at `offset`; `scanned` is the
      number of whole lines at the last pass of this connection, `settled` whether the run
      was already finished when that pass began. */
  datatype Client = Client(
    offset: nat, index: nat, received: seq<Sent>, connected: bool,
    scanned: Option<nat>, settled: bool, verdict: Option<RunState>)

  datatype World = World(s: State, c: Client)

  datatype Move = Protocol(a: Action) | Scan | Verdict | Disconnect | Reconnect

  function Wholes(log: seq<Line>): nat {
    if log != [] && log[|log| - 1].Torn? then |log| - 1 else |log|
  }

  function LogOf(w: World, id: RunId): seq<Line> {
    EventsOf(w.s.disk, id)
  }

  predicate FinishedOnDisk(s: State, id: RunId) {
    RecordOf(s.disk, id).Some? && RecordOf(s.disk, id).value.state.Finished()
  }

  /** The number after the last one received. */
  function ResumeAt(c: Client): nat {
    if c.received == [] then c.offset else c.received[|c.received| - 1].0 + 1
  }

  ghost predicate CanMove(w: World, id: RunId, m: Move) {
    match m
    case Protocol(a) => Enabled(w.s, a)
    case Scan => w.s.mode.Serving? && w.c.connected
    case Verdict => w.s.mode.Serving? && w.c.connected && w.c.scanned.Some? && FinishedOnDisk(w.s, id)
    case Disconnect => w.c.connected
    case Reconnect => w.s.mode.Serving? && !w.c.connected
  }

  function Moved(w: World, id: RunId, m: Move): World
    requires CanMove(w, id, m)
  {
    match m
    case Protocol(a) =>
      World(Next(w.s, a), if a.Crash? then w.c.(connected := false, scanned := None, settled := false) else w.c)
    case Scan =>
      var events := Readable(LogOf(w, id), w.c.index);
      w.(c := w.c.(received := w.c.received + Tagged(events, w.c.index), index := w.c.index + |events|,
                   scanned := Some(Wholes(LogOf(w, id))), settled := FinishedOnDisk(w.s, id)))
    case Verdict =>
      w.(c := w.c.(verdict := Some(RecordOf(w.s.disk, id).value.state), connected := false))
    case Disconnect => w.(c := w.c.(connected := false, scanned := None, settled := false))
    case Reconnect => w.(c := w.c.(connected := true, index := ResumeAt(w.c), scanned := None, settled := false))
  }

  function Joined(s: State, offset: nat): World {
    World(s, Client(offset, offset, [], true, None, false, None))
  }

  /** The received events are the lines of the log from `offset` on, each under its number. */
  ghost predicate Slice(log: seq<Line>, offset: nat, received: seq<Sent>) {
    forall k :: 0 <= k < |received| ==> IsLine(log, offset + k, received[k])
  }

  predicate IsLine(log: seq<Line>, n: nat, event: Sent) {
    event.0 == n && n < |log| && log[n] == Whole(event.1)
  }

  /** What was received is the slice of the log from `offset` to `index`, each line under its
      own number; a pass that found the run finished reached the end of its log. */
  ghost predicate Delivered(w: World, id: RunId) {
    var log := LogOf(w, id);
    && w.c.index == w.c.offset + |w.c.received|
    && Slice(log, w.c.offset, w.c.received)
    && (w.c.scanned.Some? ==> w.c.scanned.value <= Wholes(log) && w.c.index == Max(w.c.offset, w.c.scanned.value))
    && (w.c.settled ==> FinishedOnDisk(w.s, id) && w.c.scanned == Some(Wholes(log)))
    && (w.c.verdict.Some? ==> FinishedOnDisk(w.s, id) && w.c.verdict == Some(RecordOf(w.s.disk, id).value.state))
  }

  function Max(a: nat, b: nat): nat {
    if a < b then b else a
  }

  ghost predicate WellTailed(log: seq<Line>) {
    forall i :: 0 <= i < |log| - 1 ==> log[i].Whole?
  }

  lemma SafeIsWellTailed(s: State, id: RunId)
    requires Safe(s)
    ensures WellTailed(EventsOf(s.disk, id))
  {
    hide LockOk, BootOk, Fresh, RecordOk, PhaseFits, Readable;
    RunSafety.TraceAt(s, id);
  }

  /** A pass reads exactly the whole lines from its index on, in order. */
  lemma {:induction false} ReadableIsSlice(log: seq<Line>, offset: nat)
    requires WellTailed(log)
    ensures |Readable(log, offset)| == Max(offset, Wholes(log)) - offset
    ensures forall k :: 0 <= k < |Readable(log, offset)| ==>
              offset + k < |log| && log[offset + k] == Whole(Readable(log, offset)[k])
  {
    if log != [] {
      var init := log[..|log| - 1];
      ReadableIsSlice(init, offset);
      assert forall i :: 0 <= i < |init| ==> init[i] == log[i] && init[i].Whole?;
      assert Wholes(init) == |init|;
    }
  }

  lemma ResumesAtIndex(w: World, id: RunId)
    requires Delivered(w, id)
    ensures ResumeAt(w.c) == w.c.index
    ensures w.c.index <= Max(w.c.offset, Wholes(LogOf(w, id)))
  {
    hide FinishedOnDisk;
    if w.c.received != [] {
      var k := |w.c.received| - 1;
      assert IsLine(LogOf(w, id), w.c.offset + k, w.c.received[k]);
    }
  }

  lemma SliceExtends(log: seq<Line>, offset: nat, received: seq<Sent>, events: seq<Progress.Summary>)
    requires Slice(log, offset, received)
    requires forall j :: 0 <= j < |events| ==>
               offset + |received| + j < |log| && log[offset + |received| + j] == Whole(events[j])
    ensures Slice(log, offset, received + Tagged(events, offset + |received|))
  {
    var all := received + Tagged(events, offset + |received|);
    forall k | 0 <= k < |all| ensures IsLine(log, offset + k, all[k]) {
      if k < |received| {
        assert all[k] == received[k];
      } else {
        assert all[k] == (offset + k, events[k - |received|]);
        assert log[offset + |received| + (k - |received|)] == Whole(events[k - |received|]);
      }
    }
  }

  lemma ScanDelivers(w: World, id: RunId)
    requires Safe(w.s) && Delivered(w, id) && CanMove(w, id, Scan)
    ensures Delivered(Moved(w, id, Scan), id)
  {
    hide Safe, Readable, FinishedOnDisk, Slice;
    SafeIsWellTailed(w.s, id);
    ReadableIsSlice(LogOf(w, id), w.c.index);
    SliceExtends(LogOf(w, id), w.c.offset, w.c.received, Readable(LogOf(w, id), w.c.index));
    ResumesAtIndex(w, id);
  }

  lemma SliceGrows(log: seq<Line>, longer: seq<Line>, offset: nat, received: seq<Sent>)
    requires Slice(log, offset, received) && log <= longer
    ensures Slice(longer, offset, received)
  {}

  lemma ProtocolDelivers(w: World, id: RunId, a: Action)
    requires Safe(w.s) && Delivered(w, id) && CanMove(w, id, Protocol(a))
    ensures Delivered(Moved(w, id, Protocol(a)), id)
  {
    hide Safe, Next, Enabled, Readable, Slice;
    RunLifecycle.StepEvolves(w.s, a, id);
    RunSafety.StepKeepsSafe(w.s, a);
    SafeIsWellTailed(Next(w.s, a), id);
    var log, longer := LogOf(w, id), EventsOf(Next(w.s, a).disk, id);
    SliceGrows(log, longer, w.c.offset, w.c.received);
    assert |log| > 0 && |longer| > |log| ==> longer[|log| - 1] == log[|log| - 1];
    assert Wholes(log) <= Wholes(longer);
  }

  lemma MoveDelivers(w: World, id: RunId, m: Move)
    requires Safe(w.s) && Delivered(w, id) && CanMove(w, id, m)
    ensures Safe(Moved(w, id, m).s) && Delivered(Moved(w, id, m), id)
  {
    hide Safe, Next, Enabled, Readable;
    match m
    case Protocol(a) =>
      ProtocolDelivers(w, id, a);
      RunSafety.StepKeepsSafe(w.s, a);
    case Scan => ScanDelivers(w, id);
    case _ => ResumesAtIndex(w, id);
  }

  ghost predicate Schedule(w: World, id: RunId, moves: seq<Move>)
    decreases |moves|
  {
    moves == [] || (CanMove(w, id, moves[0]) && Schedule(Moved(w, id, moves[0]), id, moves[1..]))
  }

  ghost function Played(w: World, id: RunId, moves: seq<Move>): World
    requires Schedule(w, id, moves)
    decreases |moves|
  {
    if moves == [] then w else Played(Moved(w, id, moves[0]), id, moves[1..])
  }

  lemma {:induction false} ScheduleDelivers(w: World, id: RunId, moves: seq<Move>)
    requires Safe(w.s) && Delivered(w, id) && Schedule(w, id, moves)
    ensures Safe(Played(w, id, moves).s) && Delivered(Played(w, id, moves), id)
    decreases |moves|
  {
    hide Safe, CanMove, Moved, Delivered;
    if moves != [] {
      MoveDelivers(w, id, moves[0]);
      ScheduleDelivers(Moved(w, id, moves[0]), id, moves[1..]);
    }
  }

  /** After any schedule of launches, events, crashes, passes and reconnections, a client has
      received the contiguous slice of whole log lines that starts at its offset, each under
      its line number, with no gap and no repeat; the next connection resumes right after
      it; a verdict it got is the state the run keeps; and once a pass found the run
      finished, the slice reaches the end of the log. */
  lemma StreamIsExact(s: State, offset: nat, id: RunId, moves: seq<Move>)
    requires Safe(s) && Schedule(Joined(s, offset), id, moves)
    ensures var w := Played(Joined(s, offset), id, moves);
            var log := LogOf(w, id);
      && ResumeAt(w.c) == offset + |w.c.received|
      && Slice(log, offset, w.c.received)
      && (w.c.verdict.Some? ==> RecordOf(w.s.disk, id).Some? && w.c.verdict == Some(RecordOf(w.s.disk, id).value.state))
      && (w.c.settled ==> offset + |w.c.received| >= Wholes(log))
  {
    hide Safe, CanMove, Moved, Readable;
    ScheduleDelivers(Joined(s, offset), id, moves);
    KeepsOffset(Joined(s, offset), id, moves);
  }

  // ---- what the client makes of it ----

  function Payload(received: seq<Sent>): seq<Progress.Summary> {
    seq(|received|, i requires 0 <= i < |received| => received[i].1)
  }

  /** A client from line 0 whose pass found the run finished received the whole readable log. */
  lemma SettledReadsAll(w: World, id: RunId)
    requires Safe(w.s) && Delivered(w, id) && w.c.settled && w.c.offset == 0
    ensures Payload(w.c.received) == Readable(LogOf(w, id), 0)
  {
    hide Safe, Readable, FinishedOnDisk;
    var log, received := LogOf(w, id), w.c.received;
    SafeIsWellTailed(w.s, id);
    ReadableIsSlice(log, 0);
    forall k | 0 <= k < |received| ensures IsLine(log, k, received[k]) {
      assert IsLine(log, w.c.offset + k, received[k]);
    }
  }

  /** Over any schedule, a client that followed a run from its first line, and whose last pass
      found it finished, rebuilds from what it received exactly the progress of the record for
      SUCCESS and CANCELLED, and for the other endings all but at most the last event. */
  lemma StreamRebuildsRecord(s: State, id: RunId, moves: seq<Move>)
    requires Safe(s) && Schedule(Joined(s, 0), id, moves) && Played(Joined(s, 0), id, moves).c.settled
    ensures var w := Played(Joined(s, 0), id, moves);
            var record := RecordOf(w.s.disk, id);
      && record.Some? && record.value.state.Finished()
      && var rebuilt := Progress.Replay(Payload(w.c.received));
      && RunLifecycle.Tells(rebuilt, record.value, HistoryOf(w.s, id).seen)
      && (record.value.state.Success? || record.value.state.Cancelled? ==> rebuilt == record.value.progress)
  {
    hide Safe, CanMove, Moved, Readable, Progress.Replay, Progress.Fold;
    ScheduleDelivers(Joined(s, 0), id, moves);
    KeepsOffset(Joined(s, 0), id, moves);
    var w := Played(Joined(s, 0), id, moves);
    SettledReadsAll(w, id);
    RunLifecycle.SafeLogReplays(w.s, id);
  }

  lemma {:induction false} KeepsOffset(w: World, id: RunId, moves: seq<Move>)
    requires Schedule(w, id, moves)
    ensures Played(w, id, moves).c.offset == w.c.offset
    decreases |moves|
  {
    hide Enabled, Next, Readable;
    if moves != [] {
      KeepsOffset(Moved(w, id, moves[0]), id, moves[1..]);
    }
  }

  /** At a verdict, this connection left the client at the end of the log exactly when no
      line was added after its last pass (or the client asked for lines past the end). */
  lemma VerdictReachesEnd(w: World, id: RunId)
    requires Safe(w.s) && Delivered(w, id) && CanMove(w, id, Verdict)
    ensures w.c.index >= Wholes(LogOf(w, id)) <==>
              w.c.scanned == Some(Wholes(LogOf(w, id))) || w.c.offset >= Wholes(LogOf(w, id))
    ensures w.c.settled ==> w.c.index >= Wholes(LogOf(w, id))
  {
    hide Safe, FinishedOnDisk, WellTailed;
  }

  /** After a verdict, reconnecting for one more pass reaches the end of the log. */
  lemma OneMorePassCompletes(w: World, id: RunId)
    requires Safe(w.s) && Delivered(w, id) && CanMove(w, id, Verdict)
    ensures var again := [Verdict, Reconnect, Scan];
      && Schedule(w, id, again)
      && Played(w, id, again).c.index >= Wholes(LogOf(w, id))
      && LogOf(Played(w, id, again), id) == LogOf(w, id)
  {
    hide Safe, Delivered, Readable;
    var w1 := Moved(w, id, Verdict);
    var w2 := Moved(w1, id, Reconnect);
    MoveDelivers(w, id, Verdict);
    MoveDelivers(w1, id, Reconnect);
    MoveDelivers(w2, id, Scan);
    var w3 := Moved(w2, id, Scan);
    assert w3.c.index >= Wholes(LogOf(w3, id)) by {
      SettledAtEnd(w3, id);
    }
    var again := [Verdict, Reconnect, Scan];
    assert again[1..] == [Reconnect, Scan] && again[1..][1..] == [Scan] && [Scan][1..] == [];
    assert Schedule(w2, id, [Scan]) && Played(w2, id, [Scan]) == w3;
    assert Schedule(w1, id, [Reconnect, Scan]) && Played(w1, id, [Reconnect, Scan]) == w3;
  }

  lemma SettledAtEnd(w: World, id: RunId)
    requires Delivered(w, id) && w.c.settled
    ensures w.c.index >= Wholes(LogOf(w, id))
  {}

  lemma OneEventThenTheEnd(s: State, id: RunId, event: Progress.Event, outcome: RunOutcome)
    requires Safe(s) && At(s, id, Executing(false)) && !(s.replay && outcome.cancelled)
    requires Progress.Summarise(event).Some?
    ensures Enabled(s, Append(id, event))
    ensures Enabled(Next(s, Append(id, event)), SaveProgress(id))
    ensures Enabled(Next(Next(s, Append(id, event)), SaveProgress(id)), Finish(id, Returned(outcome)))
    ensures var t := Next(Next(Next(s, Append(id, event)), SaveProgress(id)), Finish(id, Returned(outcome)));
            && FinishedOnDisk(t, id) && t.mode.Serving?
            && EventsOf(t.disk, id) == EventsOf(s.disk, id) + [Whole(Progress.Summarise(event).value)]
  {
    hide Safe, Recoverable, Unfinished, Distinct, HistoryOf, FinalHistory, FinalState, Progress.Fold, AsInterrupted;
    RunLifecycle.EndIsFinal();
  }

  /** The check comes after the pass: an event appended between the two, and the terminal
      save, end a connection that never sent the event. */
  lemma EventBetweenPassAndVerdictIsMissed(w: World, id: RunId, event: Progress.Event, outcome: RunOutcome)
    requires Safe(w.s) && Delivered(w, id) && w.c.connected && w.c.offset == 0
    requires !(w.s.replay && outcome.cancelled)
    requires At(w.s, id, Executing(false)) && Progress.Summarise(event).Some?
    ensures var finish := Protocol(Finish(id, Returned(outcome)));
            var moves := [Scan, Protocol(Append(id, event)), Protocol(SaveProgress(id)), finish, Verdict];
      && Schedule(w, id, moves)
      && Played(w, id, moves).c.verdict.Some?
      && Played(w, id, moves).c.index < Wholes(LogOf(Played(w, id, moves), id))
  {
    hide Readable, Enabled, Next, FinishedOnDisk, Delivered, Safe;
    OneEventThenTheEnd(w.s, id, event, outcome);
    var finish := Protocol(Finish(id, Returned(outcome)));
    var w1 := Moved(w, id, Scan);
    ScanDelivers(w, id);
    ResumesAtIndex(w1, id);
    var w4 := Moved(Moved(Moved(w1, id, Protocol(Append(id, event))), id, Protocol(SaveProgress(id))), id, finish);
    assert w4.c == w1.c;
    Steps5(w, id, Scan, Protocol(Append(id, event)), Protocol(SaveProgress(id)), finish, Verdict);
  }

  lemma Steps5(w: World, id: RunId, a: Move, b: Move, c: Move, d: Move, e: Move)
    requires CanMove(w, id, a)
    requires CanMove(Moved(w, id, a), id, b)
    requires CanMove(Moved(Moved(w, id, a), id, b), id, c)
    requires CanMove(Moved(Moved(Moved(w, id, a), id, b), id, c), id, d)
    requires CanMove(Moved(Moved(Moved(Moved(w, id, a), id, b), id, c), id, d), id, e)
    ensures Schedule(w, id, [a, b, c, d, e])
    ensures Played(w, id, [a, b, c, d, e]) ==
              Moved(Moved(Moved(Moved(Moved(w, id, a), id, b), id, c), id, d), id, e)
  {
    hide CanMove, Moved;
    var w1 := Moved(w, id, a);
    var w2 := Moved(w1, id, b);
    var w3 := Moved(w2, id, c);
    var w4 := Moved(w3, id, d);
    assert [e][1..] == [] && [d, e][1..] == [e] && [c, d, e][1..] == [d, e] && [b, c, d, e][1..] == [c, d, e];
    assert [a, b, c, d, e][1..] == [b, c, d, e];
    assert Schedule(Moved(w4, id, e), id, []);
    assert Schedule(w4, id, [e]) && Played(w4, id, [e]) == Moved(w4, id, e);
    assert Schedule(w3, id, [d, e]) && Played(w3, id, [d, e]) == Moved(w4, id, e);
    assert Schedule(w2, id, [c, d, e]) && Played(w2, id, [c, d, e]) == Moved(w4, id, e);
    assert Schedule(w1, id, [b, c, d, e]) && Played(w1, id, [b, c, d, e]) == Moved(w4, id, e);
  }
}
