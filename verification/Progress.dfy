/** The Ansible event stream folded into a run's progress, and its reduction for the run view. */
module Progress {
  import opened Wrappers

  type Counters = map<string, int>

  /** The recap: for each key, the hosts it counts. */
  datatype Stats = Stats(
    ok: Counters, changed: Counters, failures: Counters, dark: Counters, skipped: Counters, rescued: Counters)

  datatype Outcome = HostOk | HostChanged | HostFailed | HostSkipped | HostUnreachable

  /** The events the service reads, by name; a `None` field is absent from the JSON. */
  datatype Event =
    | PlayStart(play: Option<string>)
    | TaskStart(task: Option<string>, play: Option<string>)
    | HostResult(kind: ResultKind, host: Option<string>, task: Option<string>, changed: bool, detail: Detail)
    | Recap(stats: Stats)
    | Other(name: string)

  /** What a result says about a failure, as text. */
  datatype Detail = Detail(msg: Option<string>, stderr: Option<string>, reason: Option<string>)

  datatype ResultKind = OnOk | OnFailed | OnSkipped | OnUnreachable | OnAsyncFailed {
    function Outcome(): Outcome {
      match this
      case OnOk => HostOk
      case OnFailed | OnAsyncFailed => HostFailed
      case OnSkipped => HostSkipped
      case OnUnreachable => HostUnreachable
    }
  }

  datatype HostProgress = HostProgress(
    ok: int, changed: int, failed: int, skipped: int, unreachable: int, lastTask: Option<string>)
  {
    function Count(outcome: Outcome): HostProgress {
      match outcome
      case HostOk => this.(ok := ok + 1)
      case HostChanged => this.(changed := changed + 1)
      case HostFailed => this.(failed := failed + 1)
      case HostSkipped => this.(skipped := skipped + 1)
      case HostUnreachable => this.(unreachable := unreachable + 1)
    }

    function Total(): int {
      ok + changed + failed + skipped + unreachable
    }
  }

  const NEW_HOST := HostProgress(0, 0, 0, 0, 0, None)

  datatype Snapshot = Snapshot(
    play: Option<string>, task: Option<string>, tasksStarted: nat, hosts: map<string, HostProgress>, recapSeen: bool)

  const NOTHING := Snapshot(None, None, 0, map[], false)

  predicate Truthy(value: Option<string>) {
    value.Some? && value.value != ""
  }

  /** `value or otherwise`. */
  function Or(value: Option<string>, otherwise: Option<string>): Option<string> {
    if Truthy(value) then value else otherwise
  }

  function HostOf(hosts: map<string, HostProgress>, host: string): HostProgress {
    if host in hosts then hosts[host] else NEW_HOST
  }

  function Read(counters: Counters, host: string, otherwise: int): int {
    if host in counters then counters[host] else otherwise
  }

  function ListedHosts(stats: Stats): set<string> {
    stats.ok.Keys + stats.changed.Keys + stats.failures.Keys + stats.skipped.Keys + stats.dark.Keys
  }

  /** A host's counters after a recap: those it lists are set, the others stay. */
  function Recapped(stats: Stats, host: string, before: HostProgress): HostProgress {
    before.(ok := Read(stats.ok, host, before.ok),
            changed := Read(stats.changed, host, before.changed),
            failed := Read(stats.failures, host, before.failed),
            skipped := Read(stats.skipped, host, before.skipped),
            unreachable := Read(stats.dark, host, before.unreachable))
  }

  function EffectiveOutcome(kind: ResultKind, changed: bool): Outcome {
    if kind.Outcome() == HostOk && changed then HostChanged else kind.Outcome()
  }

  function CountResult(p: Snapshot, host: Option<string>, task: Option<string>, outcome: Outcome): Snapshot {
    if Truthy(host) then
      var state := HostOf(p.hosts, host.value).Count(outcome).(lastTask := Or(task, p.task));
      p.(hosts := p.hosts[host.value := state])
    else p
  }

  function ApplyRecap(p: Snapshot, stats: Stats): Snapshot {
    p.(recapSeen := true,
       hosts := map host | host in p.hosts.Keys + ListedHosts(stats) :: Recapped(stats, host, HostOf(p.hosts, host)))
  }

  function Apply(p: Snapshot, event: Event): Snapshot {
    match event
    case PlayStart(play) => p.(play := Or(play, p.play))
    case TaskStart(task, _) => p.(task := Or(task, p.task), tasksStarted := p.tasksStarted + 1)
    case HostResult(kind, host, task, changed, _) => CountResult(p, host, task, EffectiveOutcome(kind, changed))
    case Recap(stats) => ApplyRecap(p, stats)
    case Other(_) => p
  }

  function Fold(events: seq<Event>): Snapshot {
    if events == [] then NOTHING else Apply(Fold(events[..|events| - 1]), events[|events| - 1])
  }

  // ---- the mutated object ----

  class RunProgress {
    var play: Option<string>
    var task: Option<string>
    var tasksStarted: nat
    var hosts: map<string, HostProgress>
    var recapSeen: bool

    constructor ()
      ensures Value() == NOTHING
    {
      play, task, tasksStarted, hosts, recapSeen := None, None, 0, map[], false;
    }

    function Value(): Snapshot
      reads this
    {
      Snapshot(play, task, tasksStarted, hosts, recapSeen)
    }

    method ApplyEvent(event: Event)
      modifies this
      ensures Value() == Apply(old(Value()), event)
    {
      match event {
        case PlayStart(name) =>
          play := Or(name, play);
        case TaskStart(name, _) =>
          task := Or(name, task);
          tasksStarted := tasksStarted + 1;
        case HostResult(kind, host, name, changed, _) =>
          if Truthy(host) {
            var state := Host(host.value);
            var outcome := kind.Outcome();
            if outcome == HostOk && changed {
              state := state.(changed := state.changed + 1);
            } else {
              state := state.Count(outcome);
            }
            hosts := hosts[host.value := state.(lastTask := Or(name, task))];
          }
        case Recap(stats) =>
          recapSeen := true;
          ApplyStats(stats);
        case Other(_) =>
      }
    }

    /** The host's entry, created when it is new. */
    method Host(host: string) returns (state: HostProgress)
      modifies `hosts
      ensures state == HostOf(old(hosts), host)
      ensures hosts == old(hosts)[host := state]
    {
      if host !in hosts {
        hosts := hosts[host := NEW_HOST];
      }
      state := hosts[host];
    }

    method ApplyStats(stats: Stats)
      modifies `hosts
      ensures Snapshot(play, task, tasksStarted, hosts, true) == ApplyRecap(old(Value()), stats)
    {
      SetField(stats.ok, HostOk);
      SetField(stats.changed, HostChanged);
      SetField(stats.failures, HostFailed);
      SetField(stats.skipped, HostSkipped);
      SetField(stats.dark, HostUnreachable);
      FieldsMakeRecap(old(Value()), stats);
    }

    /** One field of every host a counter dictionary lists. */
    method SetField(counters: Counters, field: Outcome)
      modifies `hosts
      ensures hosts == WithField(old(hosts), counters.Keys, counters, field)
    {
      hide WithField, Assign;
      WithNoField(hosts, counters, field);
      var left := counters.Keys;
      while left != {}
        invariant left <= counters.Keys
        invariant hosts == WithField(old(hosts), counters.Keys - left, counters, field)
        decreases left
      {
        ghost var before := left;
        var host :| host in left;
        WithFieldStep(old(hosts), counters.Keys - left, counters, field, host);
        var state := Host(host);
        hosts := hosts[host := Assign(state, field, counters[host])];
        left := left - {host};
        assert counters.Keys - left == counters.Keys - before + {host};
      }
      assert counters.Keys - left == counters.Keys;
    }
  }

  function Assign(state: HostProgress, field: Outcome, count: int): HostProgress {
    match field
    case HostOk => state.(ok := count)
    case HostChanged => state.(changed := count)
    case HostFailed => state.(failed := count)
    case HostSkipped => state.(skipped := count)
    case HostUnreachable => state.(unreachable := count)
  }

  ghost function WithField(hosts: map<string, HostProgress>, listed: set<string>, counters: Counters, field: Outcome)
    : map<string, HostProgress>
    requires listed <= counters.Keys
  {
    map host | host in hosts.Keys + listed ::
      if host in listed then Assign(HostOf(hosts, host), field, counters[host]) else hosts[host]
  }

  lemma WithFieldAt(hosts: map<string, HostProgress>, listed: set<string>, counters: Counters, field: Outcome,
                    host: string)
    requires listed <= counters.Keys
    ensures WithField(hosts, listed, counters, field).Keys == hosts.Keys + listed
    ensures HostOf(WithField(hosts, listed, counters, field), host) ==
              if host in listed then Assign(HostOf(hosts, host), field, counters[host]) else HostOf(hosts, host)
  {}

  lemma WithNoField(hosts: map<string, HostProgress>, counters: Counters, field: Outcome)
    ensures WithField(hosts, counters.Keys - counters.Keys, counters, field) == hosts
  {}

  lemma WithFieldStep(hosts: map<string, HostProgress>, listed: set<string>, counters: Counters, field: Outcome,
                      host: string)
    requires listed + {host} <= counters.Keys && host !in listed
    ensures var before := WithField(hosts, listed, counters, field);
            WithField(hosts, listed + {host}, counters, field) ==
              before[host := Assign(HostOf(before, host), field, counters[host])]
  {}

  lemma RecappedAt(p: Snapshot, stats: Stats, host: string)
    ensures HostOf(ApplyRecap(p, stats).hosts, host) == Recapped(stats, host, HostOf(p.hosts, host))
  {}

  lemma SameHosts(a: map<string, HostProgress>, b: map<string, HostProgress>)
    requires a.Keys == b.Keys && forall host :: HostOf(a, host) == HostOf(b, host)
    ensures a == b
  {
    forall host | host in a ensures a[host] == b[host] {
      assert HostOf(a, host) == HostOf(b, host);
    }
  }

  /** Setting the five fields in turn is the recap. */
  lemma FieldsMakeRecap(p: Snapshot, stats: Stats)
    ensures
      var h1 := WithField(p.hosts, stats.ok.Keys, stats.ok, HostOk);
      var h2 := WithField(h1, stats.changed.Keys, stats.changed, HostChanged);
      var h3 := WithField(h2, stats.failures.Keys, stats.failures, HostFailed);
      var h4 := WithField(h3, stats.skipped.Keys, stats.skipped, HostSkipped);
      var h5 := WithField(h4, stats.dark.Keys, stats.dark, HostUnreachable);
      p.(hosts := h5, recapSeen := true) == ApplyRecap(p, stats)
  {
    hide WithField, HostOf;
    var h1 := WithField(p.hosts, stats.ok.Keys, stats.ok, HostOk);
    var h2 := WithField(h1, stats.changed.Keys, stats.changed, HostChanged);
    var h3 := WithField(h2, stats.failures.Keys, stats.failures, HostFailed);
    var h4 := WithField(h3, stats.skipped.Keys, stats.skipped, HostSkipped);
    var h5 := WithField(h4, stats.dark.Keys, stats.dark, HostUnreachable);
    forall host
      ensures HostOf(h5, host) == Recapped(stats, host, HostOf(p.hosts, host))
      ensures host in h5 <==> host in p.hosts.Keys + ListedHosts(stats)
    {
      WithFieldAt(p.hosts, stats.ok.Keys, stats.ok, HostOk, host);
      WithFieldAt(h1, stats.changed.Keys, stats.changed, HostChanged, host);
      WithFieldAt(h2, stats.failures.Keys, stats.failures, HostFailed, host);
      WithFieldAt(h3, stats.skipped.Keys, stats.skipped, HostSkipped, host);
      WithFieldAt(h4, stats.dark.Keys, stats.dark, HostUnreachable, host);
    }
    forall host
      ensures HostOf(ApplyRecap(p, stats).hosts, host) == Recapped(stats, host, HostOf(p.hosts, host))
    {
      RecappedAt(p, stats, host);
    }
    SameHosts(h5, ApplyRecap(p, stats).hosts);
  }

  // ---- the reduced stream ----

  datatype Summary =
    | PlaySummary(play: Option<string>)
    | TaskSummary(task: Option<string>, play: Option<string>)
    | ResultSummary(host: Option<string>, task: Option<string>, outcome: Outcome, message: Option<string>)
    | StatsSummary(stats: Stats)

  const MESSAGE_LIMIT: nat := 2000

  /** The first of the three texts that says something, cut at the limit. */
  function FailureMessage(detail: Detail): Option<string> {
    var text := Or(detail.msg, Or(detail.stderr, detail.reason));
    if !Truthy(text) then None
    else if |text.value| <= MESSAGE_LIMIT then text
    else Some(text.value[..MESSAGE_LIMIT])
  }

  function Summarise(event: Event): Option<Summary> {
    match event
    case PlayStart(play) => Some(PlaySummary(play))
    case TaskStart(task, play) => Some(TaskSummary(task, play))
    case HostResult(kind, host, task, changed, detail) =>
      var outcome := EffectiveOutcome(kind, changed);
      Some(ResultSummary(host, task, outcome, if outcome == HostFailed then FailureMessage(detail) else None))
    case Recap(stats) => Some(StatsSummary(stats))
    case Other(_) => None
  }

  function Summaries(events: seq<Event>): seq<Summary> {
    if events == [] then []
    else
      var last := Summarise(events[|events| - 1]);
      Summaries(events[..|events| - 1]) + if last.Some? then [last.value] else []
  }

  /** What a client of the stream does with one line. */
  function View(p: Snapshot, line: Summary): Snapshot {
    match line
    case PlaySummary(play) => p.(play := Or(play, p.play))
    case TaskSummary(task, _) => p.(task := Or(task, p.task), tasksStarted := p.tasksStarted + 1)
    case ResultSummary(host, task, outcome, _) => CountResult(p, host, task, outcome)
    case StatsSummary(stats) => ApplyRecap(p, stats)
  }

  function Replay(lines: seq<Summary>): Snapshot {
    if lines == [] then NOTHING else View(Replay(lines[..|lines| - 1]), lines[|lines| - 1])
  }

  /** The reduction loses nothing the record needs: replaying the lines of a run rebuilds
      exactly the progress folded from its events. */
  lemma {:induction false} ReplayRebuildsProgress(events: seq<Event>)
    ensures Replay(Summaries(events)) == Fold(events)
  {
    if events != [] {
      ReplayRebuildsProgress(events[..|events| - 1]);
      var last := Summarise(events[|events| - 1]);
      var before := Summaries(events[..|events| - 1]);
      if last.Some? {
        assert Summaries(events)[..|before|] == before;
      } else {
        assert Summaries(events) == before;
      }
    }
  }

  // ---- what a line of the reduced stream tells ----

  /** Which counter a result event raises: an ok result that changed something counts as
      changed, a failed and an async failed one as failed. */
  predicate Raises(event: Event, host: string, outcome: Outcome) {
    && event.HostResult? && event.host == Some(host)
    && match outcome
       case HostOk => event.kind.OnOk? && !event.changed
       case HostChanged => event.kind.OnOk? && event.changed
       case HostFailed => event.kind.OnFailed? || event.kind.OnAsyncFailed?
       case HostSkipped => event.kind.OnSkipped?
       case HostUnreachable => event.kind.OnUnreachable?
  }

  /** The message of a failure: a text of the result, none before it in the order saying
      anything, whole up to 2000 characters. */
  ghost predicate Explains(message: string, detail: Detail) {
    && message != "" && |message| <= 2000
    && exists text :: SaysFirst(text, detail) && message <= text && (|message| < 2000 ==> message == text)
  }

  predicate SaysFirst(text: string, detail: Detail) {
    text != "" &&
    if Silent(detail.msg) then
      if Silent(detail.stderr) then detail.reason == Some(text) else detail.stderr == Some(text)
    else detail.msg == Some(text)
  }

  predicate Silent(text: Option<string>) {
    text.None? || text.value == ""
  }

  lemma MessageExplains(detail: Detail)
    ensures FailureMessage(detail).Some? ==> Explains(FailureMessage(detail).value, detail)
    ensures FailureMessage(detail).None? <==> Silent(detail.msg) && Silent(detail.stderr) && Silent(detail.reason)
  {
    var text := Or(detail.msg, Or(detail.stderr, detail.reason));
    if Truthy(text) {
      assert SaysFirst(text.value, detail);
    }
  }

  /** A line tells the event it was made of: the play, the task and its play, the recap in full,
      and of a result its host, its task, the counter it raises, and why exactly when it failed;
      every other event makes no line. */
  lemma LineTellsEvent(event: Event)
    ensures Summarise(event).None? <==> event.Other?
    ensures forall play :: Summarise(event) == Some(PlaySummary(play)) <==> event == PlayStart(play)
    ensures forall task, play :: Summarise(event) == Some(TaskSummary(task, play)) <==> event == TaskStart(task, play)
    ensures forall stats :: Summarise(event) == Some(StatsSummary(stats)) <==> event == Recap(stats)
    ensures event.HostResult? ==>
              && Summarise(event).Some? && Summarise(event).value.ResultSummary?
              && var line := Summarise(event).value;
              && line.host == event.host && line.task == event.task
              && (event.host.Some? ==> Raises(event, event.host.value, line.outcome))
              && (line.outcome == HostFailed <==> event.kind.OnFailed? || event.kind.OnAsyncFailed?)
              && (line.outcome != HostFailed ==> line.message == None)
              && (line.outcome == HostFailed ==>
                    if line.message.Some? then Explains(line.message.value, event.detail)
                    else Silent(event.detail.msg) && Silent(event.detail.stderr) && Silent(event.detail.reason))
  {
    hide FailureMessage, Explains, Silent;
    if event.HostResult? {
      MessageExplains(event.detail);
    }
  }

  // ---- conservation ----

  predicate Names(event: Event, host: string) {
    event.HostResult? && event.host == Some(host)
  }

  function ResultsFor(events: seq<Event>, host: string): nat {
    if events == [] then 0
    else ResultsFor(events[..|events| - 1], host) + if Names(events[|events| - 1], host) then 1 else 0
  }

  function TaskStarts(events: seq<Event>): nat {
    if events == [] then 0
    else TaskStarts(events[..|events| - 1]) + if events[|events| - 1].TaskStart? then 1 else 0
  }

  ghost predicate HasRecap(events: seq<Event>) {
    exists i :: 0 <= i < |events| && events[i].Recap?
  }

  lemma {:induction false} RecapFlag(events: seq<Event>)
    ensures Fold(events).recapSeen <==> HasRecap(events)
    ensures Fold(events).tasksStarted == TaskStarts(events)
  {
    if events != [] {
      var init, last := events[..|events| - 1], events[|events| - 1];
      RecapFlag(init);
      assert events == init + [last];
      if i :| 0 <= i < |init| && init[i].Recap? {
        assert events[i].Recap?;
      }
      if last.Recap? {
        assert events[|init|].Recap?;
      }
    }
  }

  /** Until the first recap, a host's counters add up to the result events naming it. */
  lemma {:induction false} CountersConserve(events: seq<Event>, host: string)
    requires !HasRecap(events) && host != ""
    ensures HostOf(Fold(events).hosts, host).Total() == ResultsFor(events, host)
    ensures host in Fold(events).hosts <==> ResultsFor(events, host) > 0
  {
    hide Apply, Names, HostOf, HostProgress.Total;
    if events == [] {
      NothingCounted(host);
    } else {
      var init, last := events[..|events| - 1], events[|events| - 1];
      assert !last.Recap? && forall i :: 0 <= i < |init| ==> init[i] == events[i];
      CountersConserve(init, host);
      OneEventCounts(Fold(init), last, host);
    }
  }

  lemma NothingCounted(host: string)
    ensures HostOf(NOTHING.hosts, host).Total() == 0
  {}

  lemma CountAddsOne(state: HostProgress, outcome: Outcome, task: Option<string>)
    ensures state.Count(outcome).(lastTask := task).Total() == state.Total() + 1
  {}

  lemma OneEventCounts(p: Snapshot, event: Event, host: string)
    requires !event.Recap? && host != ""
    ensures HostOf(Apply(p, event).hosts, host).Total() ==
              HostOf(p.hosts, host).Total() + if Names(event, host) then 1 else 0
    ensures host in Apply(p, event).hosts <==> host in p.hosts || Names(event, host)
  {
    hide HostProgress.Count, HostProgress.Total;
    if event.HostResult? && Truthy(event.host) {
      var named, outcome := event.host.value, EffectiveOutcome(event.kind, event.changed);
      var state := HostOf(p.hosts, named).Count(outcome).(lastTask := Or(event.task, p.task));
      assert Apply(p, event).hosts == p.hosts[named := state];
      CountAddsOne(HostOf(p.hosts, named), outcome, Or(event.task, p.task));
    } else {
      assert Apply(p, event).hosts == p.hosts;
      assert !Names(event, host);
    }
  }

  // ---- which counter, which task ----

  function Raised(events: seq<Event>, host: string, outcome: Outcome): nat {
    if events == [] then 0
    else
      Raised(events[..|events| - 1], host, outcome) +
      if Raises(events[|events| - 1], host, outcome) then 1 else 0
  }

  /** The last name given by an event of a kind; a start without a name keeps the one before. */
  function LastName(events: seq<Event>, name: Event -> Option<string>): Option<string> {
    if events == [] then None
    else
      var last := name(events[|events| - 1]);
      if Silent(last) then LastName(events[..|events| - 1], name) else last
  }

  function PlayName(event: Event): Option<string> {
    if event.PlayStart? then event.play else None
  }

  function TaskName(event: Event): Option<string> {
    if event.TaskStart? then event.task else None
  }

  /** The task of a host's last result, or where it names none, the one current then. */
  function LastTask(events: seq<Event>, host: string): Option<string> {
    if events == [] then None
    else
      var init, last := events[..|events| - 1], events[|events| - 1];
      if !Names(last, host) then LastTask(init, host)
      else if Silent(last.task) then LastName(init, TaskName)
      else last.task
  }

  /** The play and the task shown are the last ones named. */
  lemma {:induction false} PlayAndTask(events: seq<Event>)
    ensures Fold(events).play == LastName(events, PlayName)
    ensures Fold(events).task == LastName(events, TaskName)
  {
    hide CountResult, ApplyRecap;
    if events != [] {
      PlayAndTask(events[..|events| - 1]);
      KeepsNames(Fold(events[..|events| - 1]), events[|events| - 1]);
    }
  }

  lemma KeepsNames(p: Snapshot, event: Event)
    ensures var after := Apply(p, event);
      && after.play == (if Truthy(PlayName(event)) then PlayName(event) else p.play)
      && after.task == (if Truthy(TaskName(event)) then TaskName(event) else p.task)
  {}

  /** What is shown of a host after some events. */
  ghost predicate Counted(state: HostProgress, events: seq<Event>, host: string) {
    && state.ok == Raised(events, host, HostOk)
    && state.changed == Raised(events, host, HostChanged)
    && state.failed == Raised(events, host, HostFailed)
    && state.skipped == Raised(events, host, HostSkipped)
    && state.unreachable == Raised(events, host, HostUnreachable)
    && state.lastTask == LastTask(events, host)
  }

  /** Until the first recap, each counter of a host is the number of its results of that kind,
      and its last task that of its last result. */
  lemma {:induction false} CountersExact(events: seq<Event>, host: string)
    requires !HasRecap(events) && host != ""
    ensures Counted(HostOf(Fold(events).hosts, host), events, host)
  {
    hide Apply, HostOf, Counted;
    if events == [] {
      NothingYet(host);
    } else {
      var init, last := events[..|events| - 1], events[|events| - 1];
      assert !last.Recap? && forall i :: 0 <= i < |init| ==> init[i] == events[i];
      CountersExact(init, host);
      PlayAndTask(init);
      OneMoreCounted(Fold(init), init, last, host);
      assert init + [last] == events;
    }
  }

  lemma NothingYet(host: string)
    ensures Counted(HostOf(Fold([]).hosts, host), [], host)
  {}

  lemma OneMoreCounted(p: Snapshot, init: seq<Event>, event: Event, host: string)
    requires !event.Recap? && host != "" && Counted(HostOf(p.hosts, host), init, host)
    requires p.task == LastName(init, TaskName)
    ensures Counted(HostOf(Apply(p, event).hosts, host), init + [event], host)
  {
    var events := init + [event];
    assert events[..|events| - 1] == init && events[|events| - 1] == event;
    forall outcome
      ensures Raised(events, host, outcome) ==
                Raised(init, host, outcome) + if Raises(event, host, outcome) then 1 else 0
    {}
    if !Names(event, host) {
      assert HostOf(Apply(p, event).hosts, host) == HostOf(p.hosts, host);
    }
  }

  /** A recap sets precisely the counters it lists: every other counter, every last task
      and every unlisted host keeps its value, and a host is new only when it is listed. */
  lemma RecapSetsListed(events: seq<Event>, stats: Stats, host: string)
    ensures var before, after := Fold(events).hosts, Fold(events + [Recap(stats)]).hosts;
            && after.Keys == before.Keys + ListedHosts(stats)
            && var b, a := HostOf(before, host), HostOf(after, host);
            && a.ok == (if host in stats.ok then stats.ok[host] else b.ok)
            && a.changed == (if host in stats.changed then stats.changed[host] else b.changed)
            && a.failed == (if host in stats.failures then stats.failures[host] else b.failed)
            && a.skipped == (if host in stats.skipped then stats.skipped[host] else b.skipped)
            && a.unreachable == (if host in stats.dark then stats.dark[host] else b.unreachable)
            && a.lastTask == b.lastTask
            && (host !in ListedHosts(stats) ==> HostOf(after, host) == HostOf(before, host))
  {
    var all := events + [Recap(stats)];
    assert all[..|events|] == events;
  }
}
