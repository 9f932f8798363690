/** The CPU busy-rate reader: what it parses from /proc/stat, what it reports between two
    polls, and what its reports add up to. */
module CpuTimes {
  import opened Wrappers
  import opened Text

  datatype Times = Times(total: int, idle: int) {
    function Busy(): int {
      total - idle
    }
  }

  datatype Cpu = Cpu(number: int)

  function Sum(values: seq<int>): int {
    if values == [] then 0 else values[0] + Sum(values[1..])
  }

  function TimesOf(values: seq<int>): Times
    requires |values| >= 4
  {
    Times(Sum(values), if |values| >= 5 then values[3] + values[4] else values[3])
  }

  // ---- parsing ----

  /** A line is passed over, gives a CPU's counters, or has too few of them: IndexError. */
  datatype Row = Skipped | Counted(cpu: Cpu, values: seq<int>) | TooShort

  function ParseInts(fields: seq<string>): Option<seq<int>> {
    if fields == [] then Some([])
    else
      var first, rest := ParseInt(fields[0]), ParseInts(fields[1..]);
      if first.Some? && rest.Some? then Some([first.value] + rest.value) else None
  }

  function RowOf(line: string): Row {
    if !StartsWith(line, "cpu") || StartsWith(line, "cpu ") then Skipped
    else
      var fields := Words(line);
      if fields == [] || |fields[0]| < 3 then Skipped
      else
        var cpu, values := ParseInt(fields[0][3..]), ParseInts(fields[1..]);
        if cpu.None? || values.None? then Skipped
        else if |values.value| < 4 then TooShort
        else Counted(Cpu(cpu.value), values.value)
  }

  /** A line of the kernel: a CPU and its counters. */
  function PrintedRow(n: nat, values: seq<nat>): string {
    Join(["cpu" + Decimal(n)] + Printed(values), " ")
  }

  function Printed(values: seq<nat>): (texts: seq<string>)
    ensures |texts| == |values|
    ensures forall i :: 0 <= i < |values| ==> texts[i] == Decimal(values[i])
  {
    seq(|values|, i requires 0 <= i < |values| => Decimal(values[i]))
  }

  lemma {:induction false} PrintedParses(values: seq<nat>)
    ensures ParseInts(Printed(values)) == Some(values)
  {
    hide ParseInt, Decimal;
    if values != [] {
      PrintedParses(values[1..]);
      ParseIntOfDecimal(values[0]);
      assert Printed(values)[1..] == Printed(values[1..]);
      assert values == [values[0]] + values[1..];
    }
  }

  lemma DecimalIsVisible(n: nat)
    ensures NoSpace(Decimal(n)) && NoSpace("cpu" + Decimal(n))
  {
    hide IsSpace, Decimal;
    var s := "cpu" + Decimal(n);
    forall i | 0 <= i < |s| ensures !IsSpace(s[i]) {
      assert i >= 3 ==> s[i] == Decimal(n)[i - 3];
      PrintableIsNotSpace(s[i]);
    }
    forall i | 0 <= i < |Decimal(n)| ensures !IsSpace(Decimal(n)[i]) {
      PrintableIsNotSpace(Decimal(n)[i]);
    }
  }

  lemma WordsOfPrinted(n: nat, values: seq<nat>)
    ensures Words(PrintedRow(n, values)) == ["cpu" + Decimal(n)] + Printed(values)
    ensures "cpu" + Decimal(n) <= PrintedRow(n, values)
  {
    hide Words, Decimal, NoSpace;
    var words := ["cpu" + Decimal(n)] + Printed(values);
    DecimalIsVisible(n);
    forall i | 0 <= i < |words| ensures words[i] != [] && NoSpace(words[i]) {
      if i > 0 {
        assert words[i] == Decimal(values[i - 1]);
        DecimalIsVisible(values[i - 1]);
      }
    }
    WordsOfJoin(words);
    if values == [] {
      assert Join(words, " ") == words[0];
    }
  }

  /** The line of a CPU reads back as its number and its counters, or as too short with fewer
      than four; the line of all CPUs together and every other line are passed over. */
  lemma RowReadsBack(n: nat, values: seq<nat>, rest: string, other: string)
    ensures RowOf(PrintedRow(n, values)) == if |values| < 4 then TooShort else Counted(Cpu(n), values)
    ensures RowOf("cpu " + rest) == Skipped
    ensures !StartsWith(other, "cpu") ==> RowOf(other) == Skipped
  {
    hide Words, Decimal, ParseInt, ParseInts, PrintedRow, Printed;
    var line, first := PrintedRow(n, values), "cpu" + Decimal(n);
    WordsOfPrinted(n, values);
    PrintedParses(values);
    ParseIntOfDecimal(n);
    assert first[3..] == Decimal(n);
    assert line[3] == first[3] == Decimal(n)[0] != ' ';
    assert Words(line)[1..] == Printed(values);
    assert "cpu " <= "cpu " + rest;
  }

  /** The counters of each CPU, the last line for a CPU winning; `None` when one is too short. */
  function Reading(lines: seq<string>): Option<map<Cpu, seq<int>>> {
    if lines == [] then Some(map[])
    else
      var before := Reading(lines[..|lines| - 1]);
      if before.None? then None
      else
        match RowOf(lines[|lines| - 1])
        case Skipped => before
        case TooShort => None
        case Counted(cpu, values) => Some(before.value[cpu := values])
  }

  ghost predicate Plausible(reading: map<Cpu, seq<int>>) {
    forall cpu :: cpu in reading ==> |reading[cpu]| >= 4
  }

  lemma {:induction false} ReadingIsPlausible(lines: seq<string>)
    ensures Reading(lines).Some? ==> Plausible(Reading(lines).value)
  {
    hide RowOf;
    if lines != [] {
      ReadingIsPlausible(lines[..|lines| - 1]);
      RowIsLong(lines[|lines| - 1]);
    }
  }

  /** The last line that counts a CPU. */
  ghost predicate LastFor(lines: seq<string>, i: nat, cpu: Cpu, values: seq<int>) {
    && i < |lines| && RowOf(lines[i]) == Counted(cpu, values)
    && forall j :: i < j < |lines| && RowOf(lines[j]).Counted? ==> RowOf(lines[j]).cpu != cpu
  }

  ghost predicate LastSays(lines: seq<string>, cpu: Cpu, values: seq<int>) {
    exists i: nat :: LastFor(lines, i, cpu, values)
  }

  /** Reading fails exactly when some line is too short, and otherwise gives each CPU exactly
      the counters of its last line. */
  lemma {:induction false} ReadingExactly(lines: seq<string>, cpu: Cpu, values: seq<int>)
    ensures Reading(lines).None? <==> exists i :: 0 <= i < |lines| && RowOf(lines[i]).TooShort?
    ensures Reading(lines).Some? ==>
              (cpu in Reading(lines).value && Reading(lines).value[cpu] == values <==> LastSays(lines, cpu, values))
  {
    hide RowOf;
    if lines != [] {
      var init, last := lines[..|lines| - 1], lines[|lines| - 1];
      ReadingExactly(init, cpu, values);
      assert forall i :: 0 <= i < |init| ==> init[i] == lines[i];
      LastForAppend(init, last, cpu, values);
      assert init + [last] == lines;
    }
  }

  lemma LastForAppend(init: seq<string>, last: string, cpu: Cpu, values: seq<int>)
    ensures LastSays(init + [last], cpu, values) <==>
              if RowOf(last).Counted? && RowOf(last).cpu == cpu then RowOf(last).values == values
              else LastSays(init, cpu, values)
  {
    hide RowOf;
    var lines := init + [last];
    assert lines[|init|] == last && forall i :: 0 <= i < |init| ==> lines[i] == init[i];
    if RowOf(last).Counted? && RowOf(last).cpu == cpu {
      if RowOf(last).values == values {
        assert LastFor(lines, |init|, cpu, values);
      }
    } else {
      if i: nat :| LastFor(init, i, cpu, values) {
        assert LastFor(lines, i, cpu, values);
      }
      if i: nat :| LastFor(lines, i, cpu, values) {
        assert i < |init|;
        assert LastFor(init, i, cpu, values);
      }
    }
  }

  lemma RowIsLong(line: string)
    ensures RowOf(line).Counted? ==> |RowOf(line).values| >= 4
  {
    hide Words, ParseInt, ParseInts;
  }

  function Measured(reading: map<Cpu, seq<int>>): map<Cpu, Times>
    requires forall cpu :: cpu in reading ==> |reading[cpu]| >= 4
  {
    map cpu | cpu in reading :: TimesOf(reading[cpu])
  }

  // ---- the reader ----

  /** The busy percentage, before it is rounded to one decimal. */
  function Rate(previous: Times, current: Times): real
    requires current.total != previous.total
  {
    100.0 * (((current.total - previous.total) - (current.idle - previous.idle)) as real) /
    ((current.total - previous.total) as real)
  }

  function Report(previous: map<Cpu, Times>, current: map<Cpu, Times>): map<Cpu, real> {
    map cpu | cpu in current && cpu in previous && current[cpu].total > previous[cpu].total ::
      Rate(previous[cpu], current[cpu])
  }

  datatype IndexError = IndexError

  class CpuReader {
    var previous: map<Cpu, Times>

    constructor ()
      ensures previous == map[]
    {
      previous := map[];
    }

    method BusyPercent(raw: Option<string>) returns (busy: Result<map<Cpu, real>, IndexError>)
      modifies this
      ensures raw.None? || raw.value == "" ==> busy == Ok(map[]) && previous == old(previous)
      ensures raw.Some? && raw.value != "" && Reading(Lines(raw.value)).None? ==> busy.Err? && previous == old(previous)
      ensures raw.Some? && raw.value != "" && Reading(Lines(raw.value)).Some? ==>
                && Plausible(Reading(Lines(raw.value)).value)
                && previous == Measured(Reading(Lines(raw.value)).value)
                && busy == Ok(Report(old(previous), previous))
    {
      hide Lines, Reading, Measured, Report;
      if raw.None? || raw.value == "" {
        return Ok(map[]);
      }
      var current := ReadStat(Lines(raw.value));
      if current.None? {
        return Err(IndexError);
      }
      var rates := Rates(previous, current.value);
      previous := current.value;
      return Ok(rates);
    }

    static method ReadStat(lines: seq<string>) returns (current: Option<map<Cpu, Times>>)
      ensures current.Some? <==> Reading(lines).Some?
      ensures current.Some? ==> Plausible(Reading(lines).value) && current.value == Measured(Reading(lines).value)
    {
      hide RowOf, TimesOf;
      ReadingIsPlausible(lines);
      var found: map<Cpu, Times> := map[];
      for i := 0 to |lines|
        invariant Reading(lines[..i]).Some? && Plausible(Reading(lines[..i]).value)
        invariant found == Measured(Reading(lines[..i]).value)
      {
        assert lines[..i + 1][..i] == lines[..i];
        RowIsLong(lines[i]);
        var row := RowOf(lines[i]);
        if row.TooShort? {
          StaysShort(lines, i + 1);
          return None;
        }
        if row.Counted? {
          found := found[row.cpu := TimesOf(row.values)];
        }
      }
      assert lines[..|lines|] == lines;
      current := Some(found);
    }

    static method Rates(previous: map<Cpu, Times>, current: map<Cpu, Times>) returns (busy: map<Cpu, real>)
      ensures busy == Report(previous, current)
    {
      hide Rate;
      busy := map[];
      var left := current.Keys;
      while left != {}
        invariant left <= current.Keys
        invariant busy == map cpu |
          cpu in current.Keys - left && cpu in previous && current[cpu].total > previous[cpu].total ::
                            Rate(previous[cpu], current[cpu])
        decreases left
      {
        var cpu :| cpu in left;
        if cpu in previous && current[cpu].total - previous[cpu].total > 0 {
          busy := busy[cpu := Rate(previous[cpu], current[cpu])];
        }
        left := left - {cpu};
      }
    }
  }

  /** Once a line is too short, the rest of the file does not matter. */
  lemma {:induction false} StaysShort(lines: seq<string>, n: nat)
    requires n <= |lines| && Reading(lines[..n]).None?
    ensures Reading(lines).None?
    decreases |lines| - n
  {
    hide RowOf;
    if n < |lines| {
      assert lines[..n + 1][..n] == lines[..n];
      StaysShort(lines, n + 1);
    } else {
      assert lines[..n] == lines;
    }
  }

  // ---- what it reports ----

  /** Counters that only go up, field by field. */
  ghost predicate Grows(before: seq<int>, after: seq<int>) {
    |before| == |after| && forall i :: 0 <= i < |before| ==> before[i] <= after[i]
  }

  lemma {:induction false} SumGrows(before: seq<int>, after: seq<int>)
    requires Grows(before, after)
    ensures Sum(before) <= Sum(after)
  {
    if before != [] {
      SumGrows(before[1..], after[1..]);
    }
  }

  lemma {:induction false} SumConcat(a: seq<int>, b: seq<int>)
    ensures Sum(a + b) == Sum(a) + Sum(b)
  {
    if a == [] {
      assert a + b == b;
    } else {
      SumConcat(a[1..], b);
      assert (a + b)[1..] == a[1..] + b;
    }
  }

  /** The counters apart from the idle ones. */
  function BusyFields(values: seq<int>): seq<int>
    requires |values| >= 4
  {
    values[..3] + if |values| >= 5 then values[5..] else []
  }

  lemma BusyIsTheRest(values: seq<int>)
    requires |values| >= 4
    ensures TimesOf(values).Busy() == Sum(BusyFields(values))
  {
    var tail := values[3..];
    assert values == values[..3] + tail;
    SumConcat(values[..3], tail);
    if |values| >= 5 {
      assert tail[1..][1..] == values[5..];
      SumConcat(values[..3], values[5..]);
    } else {
      assert tail[1..] == [] && BusyFields(values) == values[..3];
    }
  }

  /** When counters grow, so do busy, idle and total time. */
  lemma TimesGrow(before: seq<int>, after: seq<int>)
    requires Grows(before, after) && |before| >= 4
    ensures TimesOf(before).Busy() <= TimesOf(after).Busy()
    ensures TimesOf(before).idle <= TimesOf(after).idle
    ensures TimesOf(before).total <= TimesOf(after).total
  {
    hide Sum;
    BusyIsTheRest(before);
    BusyIsTheRest(after);
    SumGrows(BusyFields(before), BusyFields(after));
  }

  lemma RateBounds(part: int, whole: int)
    requires 0 <= part <= whole && 0 < whole
    ensures 0.0 <= 100.0 * (part as real) / (whole as real) <= 100.0
    ensures (100.0 * (part as real) / (whole as real)) * (whole as real) / 100.0 == part as real
  {
    var p, w := part as real, whole as real;
    var q := 100.0 * p / w;
    assert q * w == 100.0 * p;
    FactorIsNonNegative(q, w);
    FactorIsNonNegative(100.0 - q, w);
  }

  lemma FactorIsNonNegative(x: real, y: real)
    requires x * y >= 0.0 && y > 0.0
    ensures x >= 0.0
  {}

  /** A poll reports only CPUs it has seen before, with a rate between 0 and 100. */
  lemma ReportIsAPercentage(before: map<Cpu, seq<int>>, after: map<Cpu, seq<int>>, cpu: Cpu)
    requires Plausible(before) && Plausible(after)
    requires cpu in before && cpu in after ==> Grows(before[cpu], after[cpu])
    requires cpu in Report(Measured(before), Measured(after))
    ensures cpu in before && cpu in after
    ensures 0.0 <= Report(Measured(before), Measured(after))[cpu] <= 100.0
  {
    hide TimesOf;
    TimesGrow(before[cpu], after[cpu]);
    var b, a := TimesOf(before[cpu]), TimesOf(after[cpu]);
    RateBounds((a.total - b.total) - (a.idle - b.idle), a.total - b.total);
  }

  /** A CPU is reported exactly when it was seen before and its counters moved on, and its rate
      is the share of the time passed that was neither idle nor waiting for input or output. */
  lemma ReportExactly(before: map<Cpu, seq<int>>, after: map<Cpu, seq<int>>, cpu: Cpu)
    requires Plausible(before) && Plausible(after)
    ensures var report := Report(Measured(before), Measured(after));
      && (cpu in report <==> cpu in before && cpu in after && Sum(after[cpu]) > Sum(before[cpu]))
      && (cpu in report ==>
            report[cpu] == 100.0 * ((Sum(BusyFields(after[cpu])) - Sum(BusyFields(before[cpu]))) as real) /
                           ((Sum(after[cpu]) - Sum(before[cpu])) as real))
  {
    hide Sum, BusyFields;
    if cpu in before && cpu in after {
      BusyIsTheRest(before[cpu]);
      BusyIsTheRest(after[cpu]);
    }
  }

  // ---- what the reports add up to ----

  /** The busy time a report stands for; an unreported CPU contributes nothing. */
  function Contribution(previous: map<Cpu, Times>, current: map<Cpu, Times>, cpu: Cpu): real {
    if cpu in Report(previous, current) then
      Report(previous, current)[cpu] * ((current[cpu].total - previous[cpu].total) as real) / 100.0
    else 0.0
  }

  /** Over polls in the order they were made, each against the one before. */
  function Contributions(polls: seq<map<Cpu, Times>>, cpu: Cpu): real {
    if |polls| <= 1 then 0.0
    else Contributions(polls[..|polls| - 1], cpu) + Contribution(polls[|polls| - 2], polls[|polls| - 1], cpu)
  }

  ghost predicate Present(readings: seq<map<Cpu, seq<int>>>, cpu: Cpu) {
    && (forall i :: 0 <= i < |readings| ==> Plausible(readings[i]) && cpu in readings[i])
    && (forall i :: 0 < i < |readings| ==> Grows(readings[i - 1][cpu], readings[i][cpu]))
  }

  function AllMeasured(readings: seq<map<Cpu, seq<int>>>): (polls: seq<map<Cpu, Times>>)
    requires forall i :: 0 <= i < |readings| ==> forall cpu :: cpu in readings[i] ==> |readings[i][cpu]| >= 4
    ensures |polls| == |readings|
    ensures forall i :: 0 <= i < |readings| ==> polls[i] == Measured(readings[i])
  {
    seq(|readings|, i requires 0 <= i < |readings| => Measured(readings[i]))
  }

  lemma OneContribution(before: map<Cpu, seq<int>>, after: map<Cpu, seq<int>>, cpu: Cpu)
    requires Plausible(before) && Plausible(after)
    requires cpu in before && cpu in after && Grows(before[cpu], after[cpu])
    ensures Contribution(Measured(before), Measured(after), cpu) ==
              (TimesOf(after[cpu]).Busy() - TimesOf(before[cpu]).Busy()) as real
  {
    hide TimesOf;
    TimesGrow(before[cpu], after[cpu]);
    var b, a := TimesOf(before[cpu]), TimesOf(after[cpu]);
    if a.total > b.total {
      RateBounds((a.total - b.total) - (a.idle - b.idle), a.total - b.total);
    }
  }

  lemma PresentPrefix(readings: seq<map<Cpu, seq<int>>>, cpu: Cpu)
    requires |readings| > 1 && Present(readings, cpu)
    ensures Present(readings[..|readings| - 1], cpu)
  {
    hide Grows, Plausible;
  }

  lemma PollsPrefix(readings: seq<map<Cpu, seq<int>>>, cpu: Cpu)
    requires |readings| > 1 && Present(readings, cpu)
    ensures AllMeasured(readings)[..|readings| - 1] == AllMeasured(readings[..|readings| - 1])
  {
    hide Measured, Grows;
  }

  /** The reports telescope: for a CPU present throughout, they stand for exactly the busy
      time between its first and its last reading. */
  lemma {:induction false} ReportsTelescope(readings: seq<map<Cpu, seq<int>>>, cpu: Cpu)
    requires readings != [] && Present(readings, cpu)
    ensures Contributions(AllMeasured(readings), cpu) ==
              (TimesOf(readings[|readings| - 1][cpu]).Busy() - TimesOf(readings[0][cpu]).Busy()) as real
  {
    hide TimesOf, Contribution, Grows, Measured;
    var n := |readings|;
    if n > 1 {
      var init := readings[..n - 1];
      PresentPrefix(readings, cpu);
      ReportsTelescope(init, cpu);
      PollsPrefix(readings, cpu);
      OneContribution(readings[n - 2], readings[n - 1], cpu);
      assert init[n - 2] == readings[n - 2] && init[0] == readings[0];
    }
  }
}
