/** The kernel's CPU list syntax: the parser (`parse_cpu_list`) and the printer
    (`_as_cpu_list`), character by character. */
module CpuList {
  import opened Wrappers
  import opened Sequences
  import opened Text
  import Sorting

  datatype Interval = Interval(lo: int, hi: int) {
    predicate Covers(cpu: int) {
      lo <= cpu <= hi
    }
  }

  predicate IntLess(x: int, y: int) {
    x < y
  }

  ghost predicate IsCpuSet(cpus: seq<int>) {
    Sorting.Ascending(IntLess, cpus) && forall i :: 0 <= i < |cpus| ==> 0 <= cpus[i]
  }

  // ---- parsing ----

  /** The position of the first separator, or the length of the string without one. */
  function Position(s: string, sep: char): (n: nat)
    ensures n <= |s| && sep !in s[..n]
    ensures n < |s| ==> s[n] == sep
  {
    if s == [] || s[0] == sep then 0
    else
      var n := Position(s[1..], sep);
      assert s[..n + 1] == [s[0]] + s[1..][..n];
      n + 1
  }

  /** What a stripped, non-empty chunk lists; `None` when it raises ValueError. */
  function ChunkInterval(chunk: string): Option<Interval> {
    var dash := Position(chunk, '-');
    if dash == |chunk| then
      var n := ParseInt(chunk);
      if n.Some? then Some(Interval(n.value, n.value)) else None
    else
      var start, end := ParseInt(chunk[..dash]), ParseInt(chunk[dash + 1..]);
      if start.Some? && end.Some? then Some(Interval(start.value, end.value)) else None
  }

  function Range(lo: int, hi: int): (r: seq<int>)
    ensures forall cpu :: cpu in r <==> lo <= cpu <= hi
    decreases hi - lo
  {
    if hi < lo then [] else [lo] + Range(lo + 1, hi)
  }

  function ChunkCpus(chunk: string): seq<int> {
    match ChunkInterval(chunk)
    case None => []
    case Some(interval) => Range(interval.lo, interval.hi)
  }

  /** The chunks that remain after stripping. */
  function Chunks(parts: seq<string>): seq<string> {
    if parts == [] then []
    else
      var chunk := Strip(parts[0]);
      (if chunk == [] then [] else [chunk]) + Chunks(parts[1..])
  }

  function ChunksOf(raw: string): seq<string> {
    Chunks(Split(raw, ','))
  }

  function Listed(chunks: seq<string>): seq<int> {
    if chunks == [] then [] else ChunkCpus(chunks[0]) + Listed(chunks[1..])
  }

  function Parse(raw: string): seq<int> {
    Sorting.SortUnique(IntLess, Listed(ChunksOf(raw)))
  }

  lemma ListedCons(chunk: string, rest: seq<string>)
    ensures Listed([chunk] + rest) == ChunkCpus(chunk) + Listed(rest)
  {
    assert ([chunk] + rest)[1..] == rest;
  }

  lemma ParseOfNothing()
    ensures Parse([]) == []
  {
    assert Split([], ',') == [[]];
    assert Chunks([[]]) == [];
  }

  method ParseCpuList(raw: Option<string>) returns (cpus: seq<int>)
    ensures cpus == if raw.Some? then Parse(raw.value) else []
  {
    hide Strip, ChunkCpus, Split, Sorting.SortUnique;
    if raw.None? || raw.value == [] {
      ParseOfNothing();
      return [];
    }
    var parts := Split(raw.value, ',');
    var found: seq<int> := [];
    for i := 0 to |parts|
      invariant found + Listed(Chunks(parts[i..])) == Listed(ChunksOf(raw.value))
    {
      ghost var rest := parts[i..];
      assert rest[0] == parts[i] && rest[1..] == parts[i + 1..];
      var chunk := Strip(parts[i]);
      if chunk == [] {
        assert Chunks(rest) == Chunks(parts[i + 1..]);
        continue;
      }
      assert Chunks(rest) == [chunk] + Chunks(parts[i + 1..]);
      ListedCons(chunk, Chunks(parts[i + 1..]));
      found := found + ChunkCpus(chunk);
    }
    assert parts[|parts|..] == [] && Listed(Chunks([])) == [];
    assert found == Listed(ChunksOf(raw.value));
    cpus := Sorting.SortUnique(IntLess, found);
  }

  /** A chunk lists a CPU when it is a number or a range that includes it. */
  predicate ChunkCovers(chunk: string, cpu: int) {
    var interval := ChunkInterval(chunk);
    interval.Some? && interval.value.Covers(cpu)
  }

  predicate Denotes(raw: string, cpu: int) {
    var chunks := ChunksOf(raw);
    exists i :: 0 <= i < |chunks| && ChunkCovers(chunks[i], cpu)
  }

  lemma {:induction false} ListedMembers(chunks: seq<string>, cpu: int)
    ensures cpu in Listed(chunks) <==> exists i :: 0 <= i < |chunks| && ChunkCovers(chunks[i], cpu)
  {
    if chunks != [] {
      var rest := chunks[1..];
      ListedMembers(rest, cpu);
      if j :| 0 <= j < |rest| && ChunkCovers(rest[j], cpu) {
        assert ChunkCovers(chunks[j + 1], cpu);
      }
      if j :| 0 <= j < |chunks| && ChunkCovers(chunks[j], cpu) {
        assert j > 0 ==> ChunkCovers(rest[j - 1], cpu);
      }
    }
  }

  lemma UnsignedIsNatural(s: string)
    requires '-' !in s && ParseInt(s).Some?
    ensures ParseInt(s).value >= 0
  {
    hide ParseDigits, StripLeft, StripRight;
    var t, u := Strip(s), StripLeft(s);
    assert t <= u && t[0] == u[0] && u[0] in s;
  }

  /** A start never carries a sign: the first "-" of a chunk is the separator. */
  lemma ChunkIsNatural(chunk: string, cpu: int)
    requires ChunkCovers(chunk, cpu)
    ensures cpu >= 0
  {
    hide ParseInt, Position;
    var dash := Position(chunk, '-');
    var start := chunk[..dash];
    assert dash == |chunk| ==> start == chunk;
    assert ParseInt(start).Some? && ParseInt(start).value <= cpu;
    UnsignedIsNatural(start);
  }

  /** The parser returns the CPUs the text denotes, strictly ascending, all natural. */
  lemma ParseMeaning(raw: string)
    ensures IsCpuSet(Parse(raw))
    ensures forall cpu :: cpu in Parse(raw) <==> Denotes(raw, cpu)
  {
    hide ChunksOf, ChunkCovers, Listed, Sorting.SortUnique;
    Sorting.SortUniqueCorrect(IntLess, Listed(ChunksOf(raw)));
    forall cpu ensures cpu in Parse(raw) <==> Denotes(raw, cpu) {
      ListedMembers(ChunksOf(raw), cpu);
    }
    forall i | 0 <= i < |Parse(raw)| ensures 0 <= Parse(raw)[i] {
      var cpu := Parse(raw)[i];
      assert cpu in Parse(raw);
      var chunks := ChunksOf(raw);
      var j :| 0 <= j < |chunks| && ChunkCovers(chunks[j], cpu);
      ChunkIsNatural(chunks[j], cpu);
    }
  }

  // ---- printing ----

  /** The runs of consecutive CPUs, the current one reaching from `start` to `previous`. */
  function RunsFrom(start: int, previous: int, rest: seq<int>): (runs: seq<Interval>)
    ensures runs != [] && runs[0].lo == start
    decreases |rest|
  {
    if rest == [] then [Interval(start, previous)]
    else if rest[0] == previous + 1 then RunsFrom(start, rest[0], rest[1..])
    else [Interval(start, previous)] + RunsFrom(rest[0], rest[0], rest[1..])
  }

  function Runs(cpus: seq<int>): (runs: seq<Interval>)
    requires cpus != []
    ensures runs != []
  {
    RunsFrom(cpus[0], cpus[0], cpus[1..])
  }

  function RangeText(run: Interval): string {
    if run.lo == run.hi then IntText(run.lo) else IntText(run.lo) + "-" + IntText(run.hi)
  }

  function RangeTexts(runs: seq<Interval>): (texts: seq<string>)
    ensures |texts| == |runs|
    ensures forall i :: 0 <= i < |runs| ==> texts[i] == RangeText(runs[i])
  {
    seq(|runs|, i requires 0 <= i < |runs| => RangeText(runs[i]))
  }

  function Print(cpus: seq<int>): string
    requires cpus != []
  {
    Join(RangeTexts(Runs(cpus)), ",")
  }

  method AsCpuList(cpus: seq<int>) returns (text: string)
    requires cpus != []
    ensures text == Print(cpus)
  {
    var ranges: seq<string> := [];
    var start, previous := cpus[0], cpus[0];
    ghost var done: seq<Interval> := [];
    for i := 1 to |cpus|
      invariant ranges == RangeTexts(done)
      invariant done + RunsFrom(start, previous, cpus[i..]) == Runs(cpus)
    {
      assert cpus[i..][0] == cpus[i] && cpus[i..][1..] == cpus[i + 1..];
      if cpus[i] == previous + 1 {
        previous := cpus[i];
      } else {
        ranges := ranges + [RangeText(Interval(start, previous))];
        done := done + [Interval(start, previous)];
        start, previous := cpus[i], cpus[i];
      }
    }
    assert cpus[|cpus|..] == [];
    ranges := ranges + [RangeText(Interval(start, previous))];
    assert ranges == RangeTexts(Runs(cpus));
    text := Join(ranges, ",");
  }

  /** Intervals that are non-empty, natural, ascending and neither touch nor overlap. */
  ghost predicate Separated(runs: seq<Interval>) {
    && (forall i :: 0 <= i < |runs| ==> 0 <= runs[i].lo <= runs[i].hi)
    && (forall i, j :: 0 <= i < j < |runs| ==> runs[i].hi + 1 < runs[j].lo)
  }

  ghost predicate RunsCover(runs: seq<Interval>, cpu: int) {
    exists i :: 0 <= i < |runs| && runs[i].Covers(cpu)
  }

  lemma {:induction false} RunsFromCorrect(start: int, previous: int, rest: seq<int>)
    requires 0 <= start <= previous
    requires IsCpuSet(rest) && (rest != [] ==> previous < rest[0])
    ensures Separated(RunsFrom(start, previous, rest))
    ensures forall cpu :: RunsCover(RunsFrom(start, previous, rest), cpu) <==> start <= cpu <= previous || cpu in rest
    decreases |rest|
  {
    hide Separated, RunsCover;
    var runs := RunsFrom(start, previous, rest);
    if rest == [] {
      OneRun(Interval(start, previous));
    } else {
      var next, tail := rest[0], rest[1..];
      assert rest == [next] + tail;
      assert tail != [] ==> IntLess(rest[0], rest[1]);
      if next == previous + 1 {
        RunsFromCorrect(start, next, tail);
      } else {
        RunsFromCorrect(next, next, tail);
        var head, more := Interval(start, previous), RunsFrom(next, next, tail);
        SeparatedCons(head, more);
        forall cpu ensures RunsCover(runs, cpu) <==> start <= cpu <= previous || cpu in rest {
          RunsCoverCons(head, more, cpu);
        }
      }
    }
  }

  lemma OneRun(run: Interval)
    requires 0 <= run.lo <= run.hi
    ensures Separated([run])
    ensures forall cpu :: RunsCover([run], cpu) <==> run.Covers(cpu)
  {
    assert [run][0] == run;
  }

  lemma RunsCoverCons(head: Interval, more: seq<Interval>, cpu: int)
    ensures RunsCover([head] + more, cpu) <==> head.Covers(cpu) || RunsCover(more, cpu)
  {
    var runs := [head] + more;
    assert runs[0] == head && forall i :: 0 <= i < |more| ==> more[i] == runs[i + 1];
    if i :| 0 <= i < |runs| && runs[i].Covers(cpu) {
      assert i > 0 ==> more[i - 1].Covers(cpu);
    }
  }

  lemma SeparatedCons(head: Interval, more: seq<Interval>)
    requires 0 <= head.lo <= head.hi && Separated(more)
    requires more != [] ==> head.hi + 1 < more[0].lo
    ensures Separated([head] + more)
  {
    var runs := [head] + more;
    forall i, j | 0 <= i < j < |runs| ensures runs[i].hi + 1 < runs[j].lo {
      assert j > 1 ==> more[0].hi + 1 < more[j - 1].lo;
    }
  }

  lemma RunsCorrect(cpus: seq<int>)
    requires cpus != [] && IsCpuSet(cpus)
    ensures Separated(Runs(cpus))
    ensures forall cpu :: RunsCover(Runs(cpus), cpu) <==> cpu in cpus
  {
    var rest := cpus[1..];
    assert cpus == [cpus[0]] + rest;
    assert rest != [] ==> IntLess(cpus[0], cpus[1]);
    RunsFromCorrect(cpus[0], cpus[0], rest);
  }

  // ---- the printer and the parser agree ----

  lemma PositionOf(s: string, sep: char, rest: string)
    requires sep !in s
    ensures Position(s + [sep] + rest, sep) == |s|
    ensures Position(s, sep) == |s|
  {
    if s != [] {
      PositionOf(s[1..], sep, rest);
      assert (s + [sep] + rest)[1..] == s[1..] + [sep] + rest;
    } else {
      assert s + [sep] + rest == [sep] + rest;
    }
  }

  /** A range of two numbers is one chunk without a comma that reads back as that range. */
  lemma DashedReads(run: Interval)
    requires 0 <= run.lo && 0 <= run.hi
    ensures var text := IntText(run.lo) + "-" + IntText(run.hi);
      && ',' !in text
      && Strip(text) == text != []
      && ChunkInterval(text) == Some(run)
  {
    hide Position, ParseInt, Strip, Decimal;
    var a, b := Decimal(run.lo), Decimal(run.hi);
    var text := a + "-" + b;
    assert IsDigit(a[0]) && IsDigit(b[|b| - 1]);
    assert text[0] == a[0] && text[|text| - 1] == b[|b| - 1];
    PrintableIsNotSpace(text[0]);
    PrintableIsNotSpace(text[|text| - 1]);
    StripIdentity(text);
    assert '-' !in a;
    PositionOf(a, '-', b);
    ParseIntOfDecimal(run.lo);
    ParseIntOfDecimal(run.hi);
    assert text == a + ['-'] + b;
    assert text[..|a|] == a && text[|a| + 1..] == b;
  }

  lemma NumberReads(n: nat)
    ensures ',' !in IntText(n)
    ensures Strip(IntText(n)) == IntText(n) != []
    ensures ChunkInterval(IntText(n)) == Some(Interval(n, n))
  {
    hide Position, ParseInt, Strip, Decimal;
    var a := Decimal(n);
    assert IsDigit(a[0]) && IsDigit(a[|a| - 1]);
    PrintableIsNotSpace(a[0]);
    PrintableIsNotSpace(a[|a| - 1]);
    StripIdentity(a);
    assert '-' !in a;
    PositionOf(a, '-', []);
    ParseIntOfDecimal(n);
  }

  lemma RangeTextReads(run: Interval)
    requires 0 <= run.lo <= run.hi
    ensures ',' !in RangeText(run)
    ensures Strip(RangeText(run)) == RangeText(run) != []
    ensures ChunkInterval(RangeText(run)) == Some(run)
  {
    hide IntText, ChunkInterval, Strip;
    DashedReads(run);
    NumberReads(run.lo);
  }

  /** A text that is one range denotes exactly its CPUs. */
  lemma DashedDenotes(lo: nat, hi: nat, cpu: int)
    ensures Denotes(IntText(lo) + "-" + IntText(hi), cpu) <==> lo <= cpu <= hi
  {
    hide IntText, ChunkInterval, Strip, Split;
    var text := IntText(lo) + "-" + IntText(hi);
    DashedReads(Interval(lo, hi));
    SplitPiece(text, ',', []);
    ChunksIdentity([text]);
    assert ChunksOf(text) == [text];
    assert ChunkCovers([text][0], cpu) <==> lo <= cpu <= hi;
  }

  lemma {:induction false} ChunksIdentity(parts: seq<string>)
    requires forall i :: 0 <= i < |parts| ==> Strip(parts[i]) == parts[i] != []
    ensures Chunks(parts) == parts
  {
    if parts != [] {
      ChunksIdentity(parts[1..]);
      assert parts == [parts[0]] + parts[1..];
    }
  }

  /** The printed list splits into exactly the maximal runs. */
  lemma ChunksOfPrint(cpus: seq<int>)
    requires cpus != [] && IsCpuSet(cpus)
    ensures ChunksOf(Print(cpus)) == RangeTexts(Runs(cpus))
    ensures forall i :: 0 <= i < |Runs(cpus)| ==> ChunkInterval(RangeTexts(Runs(cpus))[i]) == Some(Runs(cpus)[i])
  {
    hide RangeText, Strip, ChunkInterval, Split, Join;
    RunsCorrect(cpus);
    var runs := Runs(cpus);
    var texts := RangeTexts(runs);
    forall i | 0 <= i < |runs|
      ensures ',' !in texts[i] && Strip(texts[i]) == texts[i] != [] && ChunkInterval(texts[i]) == Some(runs[i])
    {
      RangeTextReads(runs[i]);
    }
    SplitJoin(texts, ',');
    ChunksIdentity(texts);
  }

  lemma PrintDenotes(cpus: seq<int>, cpu: int)
    requires cpus != [] && IsCpuSet(cpus)
    ensures Denotes(Print(cpus), cpu) <==> cpu in cpus
  {
    hide RangeText, ChunkInterval, Print, ChunksOf, Runs;
    ChunksOfPrint(cpus);
    RunsCorrect(cpus);
    var runs, texts := Runs(cpus), RangeTexts(Runs(cpus));
    assert ChunksOf(Print(cpus)) == texts;
    assert forall i :: 0 <= i < |runs| ==> ChunkCovers(texts[i], cpu) == runs[i].Covers(cpu);
  }

  /** Printing then parsing gives a list back exactly when it is a strictly ascending
      list of natural numbers. */
  lemma RoundTrip(cpus: seq<int>)
    requires cpus != []
    ensures Parse(Print(cpus)) == cpus <==> IsCpuSet(cpus)
  {
    hide Denotes, Print, Parse;
    ParseMeaning(Print(cpus));
    if IsCpuSet(cpus) {
      forall cpu ensures cpu in Parse(Print(cpus)) <==> cpu in cpus {
        PrintDenotes(cpus, cpu);
      }
      Sorting.AscendingUnique(IntLess, Parse(Print(cpus)), cpus);
    }
  }

  /** A part lists one CPU when it reads as a number, and with a dash the CPUs from the number
      before the first dash to the number behind it; it lists nothing when one of them is no
      number. */
  lemma ChunkReads(start: string, end: string)
    requires '-' !in start
    ensures ChunkInterval(start) == (match ParseInt(start) case Some(n) => Some(Interval(n, n)) case None => None)
    ensures ChunkInterval(start + "-" + end) ==
              if ParseInt(start).Some? && ParseInt(end).Some?
              then Some(Interval(ParseInt(start).value, ParseInt(end).value)) else None
  {
    hide Position, ParseInt;
    PositionOf(start, '-', end);
    var chunk := start + "-" + end;
    assert chunk == start + ['-'] + end;
    assert chunk[..|start|] == start && chunk[|start| + 1..] == end;
  }

  // ---- flags before a list ----

  /** A chunk that begins with a letter, such as a flag of the kernel's, lists nothing. */
  lemma FlagListsNothing(chunk: string)
    requires chunk != [] && ('a' <= chunk[0] <= 'z' || 'A' <= chunk[0] <= 'Z')
    ensures ChunkInterval(Strip(chunk)) == None
  {
    hide Position, ParseInt, Strip;
    PrintableIsNotSpace(chunk[0]);
    StripKeepsFirst(chunk);
    var stripped := Strip(chunk);
    var start := stripped[..Position(stripped, '-')];
    assert stripped[0] != '-';
    FirstIsKept(stripped);
    assert start == stripped || |start| < |stripped|;
    assert Position(stripped, '-') == |stripped| ==> start == stripped;
    NoNumber(start);
  }

  lemma FirstIsKept(s: string)
    requires s != [] && s[0] != '-'
    ensures Position(s, '-') > 0
  {}

  lemma NoNumber(s: string)
    requires s != [] && ('a' <= s[0] <= 'z' || 'A' <= s[0] <= 'Z')
    ensures ParseInt(s) == None
  {
    hide Strip;
    PrintableIsNotSpace(s[0]);
    StripKeepsFirst(s);
  }

  lemma {:induction false} ChunksConcat(a: seq<string>, b: seq<string>)
    ensures Chunks(a + b) == Chunks(a) + Chunks(b)
  {
    hide Strip;
    if a == [] {
      Associates(a, a, b);
      Associates(a, a, Chunks(b));
    } else {
      ChunksConcat(a[1..], b);
      TailOfConcat(a, b);
      Associates(if Strip(a[0]) == [] then [] else [Strip(a[0])], Chunks(a[1..]), Chunks(b));
    }
  }

  lemma {:induction false} ListedConcat(a: seq<string>, b: seq<string>)
    ensures Listed(a + b) == Listed(a) + Listed(b)
  {
    hide ChunkCpus;
    if a == [] {
      Associates(a, a, b);
      Associates([], [], Listed(b));
    } else {
      ListedConcat(a[1..], b);
      TailOfConcat(a, b);
      Associates(ChunkCpus(a[0]), Listed(a[1..]), Listed(b));
    }
  }

  lemma ListedWithout(a: seq<string>, part: string, b: seq<string>)
    requires Strip(part) == [] || ChunkInterval(Strip(part)) == None
    ensures Listed(Chunks(a + [part] + b)) == Listed(Chunks(a + b))
  {
    hide Strip, ChunkInterval, Chunks, Listed;
    assert a + [part] + b == a + ([part] + b);
    ChunksConcat(a, [part] + b);
    ChunksConcat([part], b);
    ChunksConcat(a, b);
    OnePart(part);
    ListedConcat(Chunks(a), Chunks([part]) + Chunks(b));
    ListedConcat(Chunks([part]), Chunks(b));
    ListedConcat(Chunks(a), Chunks(b));
  }

  lemma ChunksOfParts(parts: seq<string>)
    requires parts != [] && forall p :: p in parts ==> ',' !in p
    ensures ChunksOf(Join(parts, ",")) == Chunks(parts)
  {
    hide Split, Join, Chunks;
    SplitJoin(parts, ',');
  }

  /** A part that is blank or no number and no range changes nothing, wherever it stands. */
  lemma PartsWithoutNumberDoNotMatter(a: seq<string>, part: string, b: seq<string>)
    requires a + b != [] && ',' !in part
    requires forall p :: p in a || p in b ==> ',' !in p
    requires Strip(part) == [] || ChunkInterval(Strip(part)) == None
    ensures Parse(Join(a + [part] + b, ",")) == Parse(Join(a + b, ","))
  {
    hide Strip, ChunkInterval, Join, Sorting.SortUnique, Chunks, Listed, ChunksOf;
    ChunksOfParts(a + [part] + b);
    ChunksOfParts(a + b);
    ListedWithout(a, part, b);
  }

  lemma OnePart(part: string)
    requires Strip(part) == [] || ChunkInterval(Strip(part)) == None
    ensures Listed(Chunks([part])) == []
  {
    hide Strip, ChunkInterval;
    assert Chunks([part]) == if Strip(part) == [] then [] else [Strip(part)];
    assert Strip(part) != [] ==> [Strip(part)][1..] == [] && Listed([Strip(part)]) == ChunkCpus(Strip(part)) + [];
  }

  /** A printed list has a dash exactly in the chunks of several CPUs. */
  lemma DashExactly(cpus: seq<int>, i: nat)
    requires cpus != [] && IsCpuSet(cpus) && i < |Runs(cpus)|
    ensures |ChunksOf(Print(cpus))| == |Runs(cpus)|
    ensures '-' in ChunksOf(Print(cpus))[i] <==> Runs(cpus)[i].lo < Runs(cpus)[i].hi
  {
    hide Print, Runs, ChunksOf, Decimal;
    ChunksOfPrint(cpus);
    RunsCorrect(cpus);
    var run := Runs(cpus)[i];
    assert '-' !in Decimal(run.lo);
  }

  // ---- minimality ----

  lemma NothingAfterRun(runs: seq<Interval>, i: nat)
    requires Separated(runs) && i < |runs|
    ensures !RunsCover(runs, runs[i].hi + 1)
  {}

  lemma Pigeonhole(indices: seq<int>, bound: nat)
    requires forall i :: 0 <= i < |indices| ==> 0 <= indices[i] < bound
    requires forall i, j :: 0 <= i < j < |indices| ==> indices[i] != indices[j]
    ensures |indices| <= bound
    decreases bound
  {
    if indices != [] {
      assert 0 <= indices[0] < bound;
      var last: nat := bound - 1;
      if k :| 0 <= k < |indices| && indices[k] == last {
        Pigeonhole(indices[..k] + indices[k + 1..], last);
      } else {
        Pigeonhole(indices, last);
      }
    }
  }

  /** No text for the same CPUs has fewer non-empty chunks than the printer emits: one
      for each maximal run. */
  lemma PrintIsMinimal(raw: string, cpus: seq<int>)
    requires cpus != [] && IsCpuSet(cpus)
    requires Parse(raw) == cpus
    ensures |ChunksOf(Print(cpus))| == |Runs(cpus)| <= |ChunksOf(raw)|
  {
    hide RangeText, Print, Parse, ChunkInterval, ChunksOf;
    ChunksOfPrint(cpus);
    RunsCorrect(cpus);
    ParseMeaning(raw);
    var runs, chunks := Runs(cpus), ChunksOf(raw);
    var home: seq<int> := [];
    while |home| < |runs|
      invariant |home| <= |runs|
      invariant forall i :: 0 <= i < |home| ==> 0 <= home[i] < |chunks| && ChunkCovers(chunks[home[i]], runs[i].lo)
    {
      assert runs[|home|].Covers(runs[|home|].lo);
      assert Denotes(raw, runs[|home|].lo);
      var j :| 0 <= j < |chunks| && ChunkCovers(chunks[j], runs[|home|].lo);
      home := home + [j];
    }
    forall i, j | 0 <= i < j < |home| ensures home[i] != home[j] {
      var gap := runs[i].hi + 1;
      NothingAfterRun(runs, i);
      assert !Denotes(raw, gap);
      assert !ChunkCovers(chunks[home[i]], gap);
      assert runs[i].lo <= gap <= runs[j].lo;
    }
    Pigeonhole(home, |chunks|);
  }
}
