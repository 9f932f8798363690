/** The parts of Python's `str` the services rely on: `strip`, `split`, `splitlines`,
    `join`, `str(int)` and `int(str)`. */
module Text {
  import opened Wrappers

  /** The characters `str.isspace` accepts, and those at which `splitlines` ends a line. */
  const SPACES: string :=
    "\t\n\U{B}\U{C}\r\U{1C}\U{1D}\U{1E}\U{1F} \U{85}\U{A0}\U{1680}\U{2000}\U{2001}\U{2002}" +
    "\U{2003}\U{2004}\U{2005}\U{2006}\U{2007}\U{2008}\U{2009}\U{200A}\U{2028}\U{2029}\U{202F}\U{205F}\U{3000}"
  const LINE_BREAKS: string := "\n\U{B}\U{C}\r\U{1C}\U{1D}\U{1E}\U{85}\U{2028}\U{2029}"

  predicate InTable(c: char, table: string) {
    table != [] && (c == table[0] || InTable(c, table[1..]))
  }

  predicate IsSpace(c: char) {
    InTable(c, SPACES)
  }

  predicate IsLineBreak(c: char) {
    InTable(c, LINE_BREAKS)
  }

  lemma {:induction false} InTableMember(c: char, table: string)
    ensures InTable(c, table) <==> c in table
  {
    if table != [] {
      InTableMember(c, table[1..]);
      assert table == [table[0]] + table[1..];
    }
  }

  /** No printable ASCII character is white space. */
  lemma PrintableIsNotSpace(c: char)
    requires '!' <= c <= '~'
    ensures !IsSpace(c)
  {
    InTableMember(c, SPACES);
  }

  /** Every line break is white space. */
  lemma LineBreakIsSpace(c: char)
    requires IsLineBreak(c)
    ensures IsSpace(c)
  {
    InTableMember(c, LINE_BREAKS);
    InTableMember(c, SPACES);
  }

  predicate NoSpace(s: string) {
    forall i :: 0 <= i < |s| ==> !IsSpace(s[i])
  }

  predicate OneLine(s: string) {
    forall i :: 0 <= i < |s| ==> !IsLineBreak(s[i])
  }

  predicate StartsWith(s: string, prefix: string) {
    prefix <= s
  }

  // ---- strip ----

  function StripLeft(s: string): (r: string)
    ensures |r| <= |s|
    ensures r != [] ==> !IsSpace(r[0]) && r[0] in s
  {
    if s == [] || !IsSpace(s[0]) then s else StripLeft(s[1..])
  }

  function StripRight(s: string): (r: string)
    ensures r <= s
    ensures r != [] ==> !IsSpace(r[|r| - 1])
  {
    if s == [] || !IsSpace(s[|s| - 1]) then s else StripRight(s[..|s| - 1])
  }

  function Strip(s: string): string {
    StripRight(StripLeft(s))
  }

  lemma {:induction false} StripRightVisible(s: string)
    requires s != [] && !IsSpace(s[0])
    ensures StripRight(s) != [] && StripRight(s)[0] == s[0]
  {
    if IsSpace(s[|s| - 1]) {
      StripRightVisible(s[..|s| - 1]);
    }
  }

  lemma StripKeepsFirst(s: string)
    requires s != [] && !IsSpace(s[0])
    ensures Strip(s) != [] && Strip(s)[0] == s[0]
  {
    assert StripLeft(s) == s;
    StripRightVisible(s);
  }

  lemma SpaceIsSpace()
    ensures IsSpace(' ')
  {
    InTableMember(' ', SPACES);
    assert SPACES[9] == ' ';
  }

  // ---- split() ----

  function WordLength(s: string): (n: nat)
    ensures n <= |s| && NoSpace(s[..n])
    ensures n < |s| ==> IsSpace(s[n])
  {
    if s == [] || IsSpace(s[0]) then 0 else 1 + WordLength(s[1..])
  }

  lemma WordStarts(t: string)
    requires t != [] && !IsSpace(t[0])
    ensures WordLength(t) > 0
  {}

  /** `s.split()`: the maximal runs of characters that are not white space. */
  function Words(s: string): (ws: seq<string>)
    ensures forall i :: 0 <= i < |ws| ==> ws[i] != [] && NoSpace(ws[i])
    decreases |s|
  {
    var t := StripLeft(s);
    if t == [] then []
    else
      WordStarts(t);
      var n := WordLength(t);
      var rest := Words(t[n..]);
      [t[..n]] + rest
  }

  lemma WordLengthOf(w: string, rest: string)
    requires NoSpace(w) && (rest == [] || IsSpace(rest[0]))
    ensures WordLength(w + rest) == |w|
  {
    hide WordLength, IsSpace;
    var s := w + rest;
    var n := WordLength(s);
    assert forall i :: 0 <= i < |w| ==> s[i] == w[i];
    assert rest != [] ==> s[|w|] == rest[0];
    assert forall i :: 0 <= i < n ==> s[..n][i] == s[i];
  }

  lemma WordsAfterSpace(s: string)
    requires s != [] && IsSpace(s[0])
    ensures Words(s) == Words(s[1..])
  {
    assert StripLeft(s) == StripLeft(s[1..]);
  }

  lemma WordsCons(w: string, rest: string)
    requires w != [] && NoSpace(w) && (rest == [] || IsSpace(rest[0]))
    ensures Words(w + rest) == [w] + Words(rest)
  {
    WordLengthOf(w, rest);
    var s := w + rest;
    assert s[0] == w[0];
    assert StripLeft(s) == s;
    assert s[..|w|] == w && s[|w|..] == rest;
  }

  lemma WordsOfOne(w: string)
    requires w != [] && NoSpace(w)
    ensures Words(w) == [w]
  {
    WordsCons(w, []);
    assert w + [] == w;
  }

  lemma {:induction false} WordsConcat(a: string, c: char, b: string)
    requires IsSpace(c)
    ensures Words(a + [c] + b) == Words(a) + Words(b)
    decreases |a|
  {
    hide Words;
    var tail := [c] + b;
    assert a + [c] + b == a + tail;
    WordsAfterSpace(tail);
    assert tail[1..] == b;
    if a == [] {
      WordsOfNothing();
      assert a + tail == tail;
    } else if IsSpace(a[0]) {
      WordsConcat(a[1..], c, b);
      WordsAfterSpace(a);
      WordsAfterSpace(a + tail);
      assert (a + tail)[1..] == a[1..] + [c] + b;
    } else {
      var n := WordLength(a);
      var w, rest := a[..n], a[n..];
      assert a + tail == w + (rest + tail) && a == w + rest;
      WordsConcat(rest, c, b);
      assert rest + [c] + b == rest + tail;
      WordsCons(w, rest);
      WordsCons(w, rest + tail);
    }
  }

  lemma WordsOfNothing()
    ensures Words([]) == []
  {}

  /** Words joined by spaces are split into those words again. */
  lemma {:induction false} WordsOfJoin(words: seq<string>)
    requires forall i :: 0 <= i < |words| ==> words[i] != [] && NoSpace(words[i])
    ensures Words(Join(words, " ")) == words
  {
    hide Words, IsSpace;
    if words == [] {
      WordsOfNothing();
    } else if |words| == 1 {
      WordsOfOne(words[0]);
    } else {
      WordsOfJoin(words[1..]);
      SpaceIsSpace();
      WordsConcat(words[0], ' ', Join(words[1..], " "));
      WordsOfOne(words[0]);
      assert words == [words[0]] + words[1..];
    }
  }

  /** A string that does not start or end with white space is its own `strip`. */
  lemma StripIdentity(s: string)
    requires s != [] ==> !IsSpace(s[0]) && !IsSpace(s[|s| - 1])
    ensures Strip(s) == s
  {}

  /** Stripping does not change the words. */
  lemma {:induction false} WordsOfStrip(s: string)
    ensures Words(Strip(s)) == Words(s)
  {
    var t := StripLeft(s);
    assert StripLeft(t) == t;
    assert Words(s) == Words(t);
    WordsOfStripRight(t);
  }

  lemma {:induction false} WordsOfStripRight(s: string)
    ensures Words(StripRight(s)) == Words(s)
    decreases |s|
  {
    if s != [] && IsSpace(s[|s| - 1]) {
      var t, c := s[..|s| - 1], s[|s| - 1];
      assert s == t + [c] + [];
      WordsConcat(t, c, []);
      WordsOfNothing();
      WordsOfStripRight(t);
    }
  }

  // ---- split(sep) and join ----

  function Split(s: string, sep: char): (parts: seq<string>)
    ensures |parts| >= 1
  {
    if s == [] then [[]]
    else
      var rest := Split(s[1..], sep);
      if s[0] == sep then [[]] + rest else [[s[0]] + rest[0]] + rest[1..]
  }

  function Join(parts: seq<string>, sep: string): string {
    if parts == [] then []
    else if |parts| == 1 then parts[0]
    else parts[0] + sep + Join(parts[1..], sep)
  }

  lemma {:induction false} SplitPiece(p: string, sep: char, rest: string)
    requires sep !in p
    ensures Split(p + [sep] + rest, sep) == [p] + Split(rest, sep)
    ensures Split(p, sep) == [p]
  {
    if p == [] {
      assert p + [sep] + rest == [sep] + rest;
    } else {
      SplitPiece(p[1..], sep, rest);
      assert (p + [sep] + rest)[1..] == p[1..] + [sep] + rest;
      assert p == [p[0]] + p[1..];
    }
  }

  lemma {:induction false} SplitJoin(parts: seq<string>, sep: char)
    requires parts != [] && forall i :: 0 <= i < |parts| ==> sep !in parts[i]
    ensures Split(Join(parts, [sep]), sep) == parts
  {
    if |parts| == 1 {
      SplitPiece(parts[0], sep, []);
    } else {
      SplitJoin(parts[1..], sep);
      SplitPiece(parts[0], sep, Join(parts[1..], [sep]));
      assert parts == [parts[0]] + parts[1..];
    }
  }

  // ---- splitlines and the text written back ----

  function LineLength(s: string): (n: nat)
    ensures n <= |s| && OneLine(s[..n])
    ensures n < |s| ==> IsLineBreak(s[n])
  {
    if s == [] || IsLineBreak(s[0]) then 0 else 1 + LineLength(s[1..])
  }

  function Lines(text: string): (ls: seq<string>)
    ensures forall i :: 0 <= i < |ls| ==> OneLine(ls[i])
    decreases |text|
  {
    if text == [] then []
    else
      var n := LineLength(text);
      [text[..n]] + if n == |text| then [] else Lines(text[n + 1..])
  }

  /** The lines joined by newlines, with one at the end unless there is no line. */
  function Unlines(lines: seq<string>): string {
    Join(lines, "\n") + if lines == [] then "" else "\n"
  }

  /** Every line ends with "\n" and no other line break occurs. */
  ghost predicate Normalised(text: string) {
    && (text == [] || text[|text| - 1] == '\n')
    && forall i :: 0 <= i < |text| && IsLineBreak(text[i]) ==> text[i] == '\n'
  }

  lemma UnlinesCons(line: string, rest: seq<string>)
    ensures Unlines([line] + rest) == line + "\n" + Unlines(rest)
  {
    var all := [line] + rest;
    if rest != [] {
      assert all[1..] == rest;
    }
  }

  lemma LineLengthOf(line: string, rest: string)
    requires OneLine(line) && rest != [] && IsLineBreak(rest[0])
    ensures LineLength(line + rest) == |line|
  {
    hide LineLength, IsLineBreak;
    var s := line + rest;
    var n := LineLength(s);
    assert forall i :: 0 <= i < |line| ==> s[i] == line[i];
    assert rest != [] ==> s[|line|] == rest[0];
    assert forall i :: 0 <= i < n ==> s[..n][i] == s[i];
  }

  lemma LinesCons(line: string, tail: string)
    requires OneLine(line)
    ensures Lines(line + "\n" + tail) == [line] + Lines(tail)
  {
    var text := line + "\n" + tail;
    assert text == line + ("\n" + tail);
    LineLengthOf(line, "\n" + tail);
    assert text[..|line|] == line && text[|line| + 1..] == tail;
  }

  /** Lines written to the file are the lines read back. */
  lemma {:induction false} LinesOfUnlines(lines: seq<string>)
    requires forall i :: 0 <= i < |lines| ==> OneLine(lines[i])
    ensures Lines(Unlines(lines)) == lines
  {
    if lines != [] {
      var line, rest := lines[0], lines[1..];
      assert lines == [line] + rest;
      UnlinesCons(line, rest);
      LinesOfUnlines(rest);
      LinesCons(line, Unlines(rest));
    }
  }

  /** Reading a file and writing its lines back changes nothing exactly when the
      file is newline-normalised. */
  lemma {:induction false} UnlinesOfLines(text: string)
    ensures Unlines(Lines(text)) == text <==> Normalised(text)
    decreases |text|
  {
    if text != [] {
      var n := LineLength(text);
      if n == |text| {
        assert text[..n] == text;
        assert Lines(text) == [text] + [];
        assert Unlines([text]) == text + "\n";
      } else {
        var line, rest := text[..n], text[n + 1..];
        assert text == line + [text[n]] + rest;
        UnlinesOfLines(rest);
        UnlinesCons(line, Lines(rest));
        NormalisedCons(line, text[n], rest);
        var back := line + "\n" + Unlines(Lines(rest));
        assert Unlines(Lines(text)) == back;
        assert back[n] == '\n' && back[n + 1..] == Unlines(Lines(rest));
      }
    }
  }

  lemma NormalisedCons(line: string, c: char, rest: string)
    requires OneLine(line) && IsLineBreak(c)
    ensures Normalised(line + [c] + rest) <==> c == '\n' && Normalised(rest)
  {
    var text := line + [c] + rest;
    assert text[|line|] == c;
    assert forall i :: 0 <= i < |rest| ==> rest[i] == text[|line| + 1 + i];
    if c == '\n' && Normalised(rest) {
      forall i | 0 <= i < |text| && IsLineBreak(text[i]) ensures text[i] == '\n' {
        if i > |line| {
          assert text[i] == rest[i - |line| - 1];
        }
      }
    }
    assert rest != [] ==> text[|text| - 1] == rest[|rest| - 1];
  }

  // ---- str(int) and int(str) ----

  function Digit(n: nat): (c: char)
    requires n < 10
    ensures '0' <= c <= '9'
  {
    ('0' as int + n) as char
  }

  predicate IsDigit(c: char) {
    '0' <= c <= '9'
  }

  function Decimal(n: nat): (s: string)
    ensures s != [] && forall i :: 0 <= i < |s| ==> IsDigit(s[i])
    ensures n > 0 ==> s[0] != '0'
    ensures n == 0 ==> s == "0"
  {
    if n < 10 then [Digit(n)] else Decimal(n / 10) + [Digit(n % 10)]
  }

  /** `str(n)`. */
  function IntText(n: int): string {
    if n < 0 then "-" + Decimal(-n) else Decimal(n)
  }

  /** Digits, with single underscores allowed between them. */
  predicate IsNumeral(s: string) {
    && s != []
    && IsDigit(s[0])
    && (|s| == 1 || IsNumeral(s[1..]) || (s[1] == '_' && IsNumeral(s[2..])))
  }

  function DigitValue(c: char): (n: nat)
    requires IsDigit(c)
  {
    c as int - '0' as int
  }

  function NumeralValue(s: string): nat
    requires forall i :: 0 <= i < |s| ==> IsDigit(s[i]) || s[i] == '_'
  {
    if s == [] then 0
    else
      var init, last := s[..|s| - 1], s[|s| - 1];
      if last == '_' then NumeralValue(init) else 10 * NumeralValue(init) + DigitValue(last)
  }

  lemma NumeralCharacters(s: string)
    requires IsNumeral(s)
    ensures forall i :: 0 <= i < |s| ==> IsDigit(s[i]) || s[i] == '_'
  {
    if |s| > 1 && !IsNumeral(s[1..]) {
      NumeralCharacters(s[2..]);
      assert s == [s[0], s[1]] + s[2..];
    } else if |s| > 1 {
      NumeralCharacters(s[1..]);
      assert s == [s[0]] + s[1..];
    }
  }

  function ParseDigits(s: string): Option<nat> {
    if IsNumeral(s) then
      NumeralCharacters(s);
      Some(NumeralValue(s))
    else None
  }

  function Negated(n: Option<nat>): Option<int> {
    if n.Some? then Some(-(n.value as int)) else None
  }

  /** `int(s)` on ASCII text: `None` stands for ValueError. */
  function ParseInt(s: string): Option<int> {
    var t := Strip(s);
    if t == [] then None
    else if t[0] == '-' then Negated(ParseDigits(t[1..]))
    else if t[0] == '+' then ParseDigits(t[1..])
    else ParseDigits(t)
  }

  lemma DigitsAreNumeral(s: string)
    requires s != [] && forall i :: 0 <= i < |s| ==> IsDigit(s[i])
    ensures IsNumeral(s)
  {}

  lemma {:induction false} NumeralOfDecimal(n: nat)
    ensures NumeralValue(Decimal(n)) == n
  {
    if n < 10 {
      assert NumeralValue([]) == 0;
      assert [Digit(n)][..0] == [];
    } else {
      NumeralOfDecimal(n / 10);
      var s := Decimal(n);
      assert s[..|s| - 1] == Decimal(n / 10);
    }
  }

  /** `int(str(n)) == n` for every natural number. */
  lemma ParseIntOfDecimal(n: nat)
    ensures ParseInt(Decimal(n)) == Some(n)
  {
    hide IsNumeral, NumeralValue, Strip, Decimal;
    var s := Decimal(n);
    assert IsDigit(s[0]) && IsDigit(s[|s| - 1]);
    PrintableIsNotSpace(s[0]);
    PrintableIsNotSpace(s[|s| - 1]);
    StripIdentity(s);
    DigitsAreNumeral(s);
    NumeralOfDecimal(n);
    assert ParseDigits(s) == Some(n);
  }

  /** `int(str(n)) == n` for every number, a minus sign before a negative one. */
  lemma ParseIntOfIntText(n: int)
    ensures ParseInt(IntText(n)) == Some(n)
    ensures n < 0 ==> IntText(n) == "-" + IntText(-n)
  {
    hide IsNumeral, NumeralValue, Strip, Decimal, ParseDigits;
    if n >= 0 {
      ParseIntOfDecimal(n);
    } else {
      var m: nat := -n;
      var digits, s := Decimal(m), "-" + Decimal(m);
      assert s[0] == '-' && s[1..] == digits && s[|s| - 1] == digits[|digits| - 1];
      assert IsDigit(digits[|digits| - 1]);
      PrintableIsNotSpace('-');
      PrintableIsNotSpace(s[|s| - 1]);
      StripIdentity(s);
      DigitsParse(m);
    }
  }

  lemma DigitsParse(n: nat)
    ensures ParseDigits(Decimal(n)) == Some(n)
  {
    hide IsNumeral, NumeralValue, Decimal;
    DigitsAreNumeral(Decimal(n));
    NumeralOfDecimal(n);
  }

  // ---- what the readers tolerate ----

  predicate Blank(s: string) {
    forall i :: 0 <= i < |s| ==> IsSpace(s[i])
  }

  lemma {:induction false} StripLeftOf(blank: string, s: string)
    requires Blank(blank) && s != [] && !IsSpace(s[0])
    ensures StripLeft(blank + s) == s
  {
    hide IsSpace;
    if blank == [] {
      assert blank + s == s;
    } else {
      assert (blank + s)[0] == blank[0] && (blank + s)[1..] == blank[1..] + s;
      StripLeftOf(blank[1..], s);
    }
  }

  lemma {:induction false} StripRightOf(s: string, blank: string)
    requires Blank(blank) && s != [] && !IsSpace(s[|s| - 1])
    ensures StripRight(s + blank) == s
  {
    hide IsSpace;
    if blank == [] {
      assert s + blank == s;
    } else {
      var init := blank[..|blank| - 1];
      assert (s + blank)[|s + blank| - 1] == blank[|blank| - 1] && (s + blank)[..|s + blank| - 1] == s + init;
      StripRightOf(s, init);
    }
  }

  /** `strip` takes away exactly the white space around a text. */
  lemma StripTakesBlanks(left: string, s: string, right: string)
    requires Blank(left) && Blank(right) && s != [] && !IsSpace(s[0]) && !IsSpace(s[|s| - 1])
    ensures Strip(left + s + right) == s
  {
    hide IsSpace;
    assert left + s + right == left + (s + right);
    StripLeftOf(left, s + right);
    StripRightOf(s, right);
  }

  predicate AllDigits(s: string) {
    s != [] && forall i :: 0 <= i < |s| ==> IsDigit(s[i])
  }

  /** One underscore may stand between digits, and does not change the number. */
  lemma {:induction false} UnderscoreReads(a: string, b: string)
    requires AllDigits(a) && AllDigits(b)
    ensures IsNumeral(a + "_" + b)
  {
    DigitsAreNumeral(b);
    if |a| == 1 {
      assert (a + "_" + b)[2..] == b;
    } else {
      assert (a + "_" + b)[1..] == a[1..] + "_" + b;
      UnderscoreReads(a[1..], b);
    }
  }

  lemma {:induction false} UnderscoreCounts(a: string, b: string)
    requires AllDigits(a) && forall i :: 0 <= i < |b| ==> IsDigit(b[i])
    ensures NumeralValue(a + "_" + b) == NumeralValue(a + b)
    decreases |b|
  {
    if b == [] {
      assert (a + "_" + b)[..|a|] == a && a + b == a;
    } else {
      var init := b[..|b| - 1];
      assert (a + "_" + b)[..|a + b|] == a + "_" + init && (a + b)[..|a + b| - 1] == a + init;
      UnderscoreCounts(a, init);
    }
  }

  /** `int` on a natural number: white space around it, a plus sign, and an underscore between
      two of its digits are all read over; a letter in front is not. */
  lemma ParseIntTolerates(n: nat, left: string, right: string, k: nat)
    requires Blank(left) && Blank(right)
    ensures ParseInt(left + Decimal(n) + right) == ParseInt(left + ("+" + Decimal(n)) + right) == Some(n)
    ensures 0 < k < |Decimal(n)| ==> ParseInt(Decimal(n)[..k] + "_" + Decimal(n)[k..]) == Some(n)
  {
    hide IsSpace, IsNumeral, NumeralValue, Decimal, Strip, ParseDigits;
    var digits := Decimal(n);
    PrintableIsNotSpace(digits[0]);
    PrintableIsNotSpace(digits[|digits| - 1]);
    PrintableIsNotSpace('+');
    StripTakesBlanks(left, digits, right);
    var plus := "+" + digits;
    assert plus[1..] == digits && plus[|plus| - 1] == digits[|digits| - 1];
    StripTakesBlanks(left, plus, right);
    DigitsParse(n);
    assert IsDigit(digits[0]);
    if 0 < k < |digits| {
      UnderscoreInside(digits, n, k);
    }
  }

  lemma UnderscoreInside(digits: string, n: nat, k: nat)
    requires digits == Decimal(n) && 0 < k < |digits|
    ensures ParseInt(digits[..k] + "_" + digits[k..]) == Some(n)
  {
    hide IsSpace, IsNumeral, NumeralValue, Decimal, Strip;
    var a, b := digits[..k], digits[k..];
    var s := a + "_" + b;
    assert s[0] == digits[0] && s[|s| - 1] == digits[|digits| - 1];
    PrintableIsNotSpace(s[0]);
    PrintableIsNotSpace(s[|s| - 1]);
    StripIdentity(s);
    UnderscoreReads(a, b);
    UnderscoreCounts(a, b);
    assert a + b == digits;
    NumeralOfDecimal(n);
    assert IsDigit(s[0]);
  }

  /** White space, by code point: the ASCII controls that separate, the space, and Unicode's. */
  lemma SpacesByCode(c: char)
    ensures IsSpace(c) <==>
              || '\t' <= c <= '\r' || '\U{1C}' <= c <= ' ' || c == '\U{85}' || c == '\U{A0}' || c == '\U{1680}'
              || '\U{2000}' <= c <= '\U{200A}' || c == '\U{2028}' || c == '\U{2029}' || c == '\U{202F}'
              || c == '\U{205F}' || c == '\U{3000}'
  {
    InTableMember(c, SPACES);
  }

  /** What ends a line, by code point. */
  lemma LineBreaksByCode(c: char)
    ensures IsLineBreak(c) <==>
              '\n' <= c <= '\r' || '\U{1C}' <= c <= '\U{1E}' || c == '\U{85}' || '\U{2028}' <= c <= '\U{2029}'
  {
    InTableMember(c, LINE_BREAKS);
  }
}
