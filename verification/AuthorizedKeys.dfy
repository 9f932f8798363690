/** Editing an `authorized_keys` file shared with another owner: whole lines, added and
    removed by their comment. */
module AuthorizedKeys {
  import opened Wrappers
  import opened Text

  const COMMENT_PREFIX: string := "seapath-webui:"

  datatype AuthorizedKey = AuthorizedKey(comment: string, publicKey: string, fromAddresses: seq<string>) {
    function Options(): string {
      (if fromAddresses == [] then "" else "from=\"" + Join(fromAddresses, ",") + "\",") + "restrict"
    }

    function Render(): string {
      Options() + " " + publicKey + " " + comment
    }
  }

  lemma WordsOfVisible(s: string)
    requires s != [] && !IsSpace(s[0])
    ensures Words(s) != []
  {}

  lemma StripStart(s: string)
    ensures Strip(s) != [] ==> !IsSpace(Strip(s)[0])
  {
    var u := StripLeft(s);
    assert Strip(s) <= u;
  }

  /** A comment the readers can recover: the service's prefix and no white space. */
  predicate ProperComment(comment: string) {
    StartsWith(comment, COMMENT_PREFIX) && NoSpace(comment)
  }

  /** The trailing comment of a line that carries the service's prefix. */
  function CommentOf(line: string): (comment: Option<string>)
    ensures comment.Some? ==> ProperComment(comment.value)
  {
    var stripped := Strip(line);
    if stripped == [] || stripped[0] == '#' then None
    else
      StripStart(line);
      WordsOfVisible(stripped);
      var fields := Words(stripped);
      var candidate := fields[|fields| - 1];
      if StartsWith(candidate, COMMENT_PREFIX) then Some(candidate) else None
  }

  predicate Owned(line: string) {
    CommentOf(line).Some?
  }

  /** The two fields before the comment. */
  function KeyBlobOf(line: string): Option<string> {
    var fields := Words(Strip(line));
    if |fields| < 4 then None else Some(fields[|fields| - 3] + " " + fields[|fields| - 2])
  }

  // ---- whole lines ----

  function Filter<T>(keep: T -> bool, items: seq<T>): seq<T> {
    if items == [] then []
    else (if keep(items[0]) then [items[0]] else []) + Filter(keep, items[1..])
  }

  predicate KeptBy(key: AuthorizedKey, line: string) {
    match CommentOf(line)
    case None => true
    case Some(comment) => comment != key.comment && KeyBlobOf(line) != Some(key.publicKey)
  }

  function Keeping(key: AuthorizedKey): string -> bool {
    line => KeptBy(key, line)
  }

  function Excluding(comment: string): string -> bool {
    line => CommentOf(line) != Some(comment)
  }

  function InstallLines(lines: seq<string>, key: AuthorizedKey): seq<string> {
    Filter(Keeping(key), lines) + [key.Render()]
  }

  function RemoveLines(lines: seq<string>, comment: string): seq<string> {
    Filter(Excluding(comment), lines)
  }

  function OwnedLines(lines: seq<string>): seq<string> {
    Filter(Owned, lines)
  }

  function ForeignLines(lines: seq<string>): seq<string> {
    Filter((line: string) => !Owned(line), lines)
  }

  /** A file is rewritten only when its lines change. */
  function Rewritten(text: string, lines: seq<string>): string {
    if lines == Lines(text) then text else Unlines(lines)
  }

  function InstallText(text: string, key: AuthorizedKey): string {
    Rewritten(text, InstallLines(Lines(text), key))
  }

  function RemoveText(text: string, comment: string): string {
    Rewritten(text, RemoveLines(Lines(text), comment))
  }

  // ---- the file ----

  datatype File = NoDirectory | NoFile | Unreadable | Content(text: string) {
    predicate Reachable() {
      NoFile? || Content?
    }

    function Text(): string {
      if Content? then text else ""
    }
  }

  datatype MissingAccount = MissingAccount

  class AuthorizedKeysFile {
    var file: File

    constructor (file: File)
      ensures this.file == file
    {
      this.file := file;
    }

    method Read() returns (lines: Result<seq<string>, MissingAccount>)
      ensures lines == if file.Reachable() then Ok(Lines(file.Text())) else Err(MissingAccount)
    {
      match file
      case Content(text) => lines := Ok(Lines(text));
      case NoFile => lines := Ok([]);
      case _ => lines := Err(MissingAccount);
    }

    /** The loop of `install`: everything but the lines the new one replaces. */
    static method KeepOthers(lines: seq<string>, key: AuthorizedKey) returns (kept: seq<string>)
      ensures kept == Filter(Keeping(key), lines)
    {
      hide CommentOf, KeyBlobOf;
      kept := [];
      for i := 0 to |lines|
        invariant kept + Filter(Keeping(key), lines[i..]) == Filter(Keeping(key), lines)
      {
        ghost var rest := lines[i..];
        assert rest[0] == lines[i] && rest[1..] == lines[i + 1..];
        var comment := CommentOf(lines[i]);
        if comment.None? {
          kept := kept + [lines[i]];
        } else if comment.value == key.comment {
        } else if KeyBlobOf(lines[i]) == Some(key.publicKey) {
        } else {
          kept := kept + [lines[i]];
        }
      }
      assert lines[|lines|..] == [];
    }

    /** Add or update the service's line; the result says whether the file changed. */
    method Install(key: AuthorizedKey) returns (changed: Result<bool, MissingAccount>)
      modifies this
      ensures changed.Ok? <==> old(file).NoFile? || old(file).Content?
      ensures changed.Err? ==> file == old(file)
      ensures changed.Ok? ==> changed.value == (InstallLines(Lines(old(file).Text()), key) != Lines(old(file).Text()))
      ensures changed == Ok(true) ==> file.Content?
      ensures changed == Ok(false) ==> file == old(file)
      ensures changed.Ok? ==> file.Text() == InstallText(old(file).Text(), key)
    {
      hide Filter, Lines, Unlines;
      var read := Read();
      if read.Err? {
        return Err(MissingAccount);
      }
      var lines := read.value;
      var kept := KeepOthers(lines, key);
      kept := kept + [key.Render()];
      assert kept == InstallLines(lines, key);
      if kept == lines {
        return Ok(false);
      }
      file := Content(Unlines(kept));
      return Ok(true);
    }

    method Remove(comment: string) returns (removed: Result<bool, MissingAccount>)
      modifies this
      ensures removed.Ok? <==> old(file).NoFile? || old(file).Content?
      ensures removed != Ok(true) ==> file == old(file)
      ensures removed.Ok? ==>
                removed.value == (RemoveLines(Lines(old(file).Text()), comment) != Lines(old(file).Text()))
      ensures removed.Ok? ==> file.Text() == RemoveText(old(file).Text(), comment)
    {
      hide CommentOf, Lines, Unlines;
      var read := Read();
      if read.Err? {
        return Err(MissingAccount);
      }
      var updated := Filter(Excluding(comment), read.value);
      if updated == read.value {
        return Ok(false);
      }
      file := Content(Unlines(updated));
      return Ok(true);
    }

    method Installed() returns (comments: Result<seq<string>, MissingAccount>)
      ensures comments.Ok? <==> file.NoFile? || file.Content?
      ensures comments.Ok? ==> comments.value == CommentsIn(Lines(file.Text()))
    {
      hide CommentOf, Lines;
      var read := Read();
      if read.Err? {
        return Err(MissingAccount);
      }
      var lines, found := read.value, [];
      for i := 0 to |lines|
        invariant found == CommentsIn(lines[..i])
      {
        assert lines[..i + 1][..i] == lines[..i];
        var comment := CommentOf(lines[i]);
        if comment.Some? {
          found := found + [comment.value];
        }
      }
      assert lines[..|lines|] == lines;
      comments := Ok(found);
    }
  }

  /** The comments of the service's lines, in file order. */
  function CommentsIn(lines: seq<string>): seq<string> {
    if lines == [] then []
    else
      var init, comment := lines[..|lines| - 1], CommentOf(lines[|lines| - 1]);
      CommentsIn(init) + if comment.Some? then [comment.value] else []
  }

  /** A comment is listed exactly when a line carries it. */
  lemma {:induction false} CommentsInMembers(lines: seq<string>, comment: string)
    ensures comment in CommentsIn(lines) <==> exists i :: 0 <= i < |lines| && CommentOf(lines[i]) == Some(comment)
  {
    hide CommentOf;
    if lines != [] {
      var init := lines[..|lines| - 1];
      CommentsInMembers(init, comment);
      assert forall i :: 0 <= i < |init| ==> init[i] == lines[i];
    }
  }

  // ---- the printed line and its readers ----

  lemma {:induction false} JoinOneLine(parts: seq<string>, sep: string)
    requires OneLine(sep) && forall i :: 0 <= i < |parts| ==> OneLine(parts[i])
    ensures OneLine(Join(parts, sep))
  {
    if |parts| > 1 {
      JoinOneLine(parts[1..], sep);
    }
  }

  lemma VisibleIsOneLine(s: string)
    requires NoSpace(s)
    ensures OneLine(s)
  {
    forall i | 0 <= i < |s| ensures !IsLineBreak(s[i]) {
      if IsLineBreak(s[i]) {
        LineBreakIsSpace(s[i]);
      }
    }
  }

  lemma RenderIsOneLine(key: AuthorizedKey)
    requires OneLine(key.comment) && OneLine(key.publicKey)
    requires forall i :: 0 <= i < |key.fromAddresses| ==> OneLine(key.fromAddresses[i])
    ensures OneLine(key.Render())
  {
    hide IsLineBreak, Join;
    forall c | c in "from=\"," || c in "restrict" || c == ' '
      ensures !IsLineBreak(c)
    {
      PrintableIsNoBreak(c);
    }
    JoinOneLine(key.fromAddresses, ",");
  }

  lemma PrintableIsNoBreak(c: char)
    requires ' ' <= c <= '~'
    ensures !IsLineBreak(c)
  {
    InTableMember(c, LINE_BREAKS);
  }

  lemma WordsOfRender(key: AuthorizedKey)
    ensures Words(key.Render()) == Words(key.Options()) + Words(key.publicKey) + Words(key.comment)
  {
    hide Words;
    SpaceIsSpace();
    WordsConcat(key.Options() + " " + key.publicKey, ' ', key.comment);
    WordsConcat(key.Options(), ' ', key.publicKey);
  }

  lemma RenderStart(key: AuthorizedKey)
    ensures var s := Strip(key.Render()); s != [] && s[0] != '#' && !IsSpace(s[0])
    ensures Words(key.Options()) != []
  {
    var line := key.Render();
    assert line[0] == 'f' || line[0] == 'r';
    PrintableIsNotSpace(line[0]);
    assert StripLeft(line) == line;
    StripRightVisible(line);
    assert key.Options()[0] == line[0];
    WordsOfVisible(key.Options());
  }

  /** `_comment_of` recovers the comment of a printed line exactly when the comment
      carries the prefix and no white space. */
  lemma CommentOfRender(key: AuthorizedKey)
    ensures CommentOf(key.Render()) == Some(key.comment) <==> ProperComment(key.comment)
  {
    hide Words, Strip, Text.IsSpace;
    var line := key.Render();
    RenderStart(key);
    WordsOfRender(key);
    WordsOfStrip(line);
    if ProperComment(key.comment) {
      WordsOfOne(key.comment);
    }
    var fields := Words(line);
    assert NoSpace(fields[|fields| - 1]);
  }

  predicate TwoFields(publicKey: string) {
    exists n :: 0 < n < |publicKey| - 1 && publicKey[n] == ' ' && NoSpace(publicKey[..n]) && NoSpace(publicKey[n + 1..])
  }

  /** `_key_blob_of` recovers a two-field key from a printed line. */
  lemma KeyBlobOfRender(key: AuthorizedKey)
    requires ProperComment(key.comment) && TwoFields(key.publicKey)
    ensures KeyBlobOf(key.Render()) == Some(key.publicKey)
  {
    hide Words, Strip, Text.IsSpace;
    var line, k := key.Render(), key.publicKey;
    var n :| 0 < n < |k| - 1 && k[n] == ' ' && NoSpace(k[..n]) && NoSpace(k[n + 1..]);
    var a, b := k[..n], k[n + 1..];
    assert k == a + " " + b;
    SpaceIsSpace();
    WordsConcat(a, ' ', b);
    WordsOfOne(a);
    WordsOfOne(b);
    WordsOfOne(key.comment);
    RenderStart(key);
    WordsOfRender(key);
    WordsOfStrip(line);
    assert Words(line) == Words(key.Options()) + [a, b, key.comment];
  }

  /** What an installed key has to be for its line to be recognised again: the comment
      proper, the key two fields, nothing that breaks the line. */
  ghost predicate ProperKey(key: AuthorizedKey) {
    && ProperComment(key.comment)
    && TwoFields(key.publicKey)
    && forall i :: 0 <= i < |key.fromAddresses| ==> OneLine(key.fromAddresses[i])
  }

  lemma TwoFieldsOneLine(k: string)
    requires TwoFields(k)
    ensures OneLine(k)
  {
    hide IsLineBreak;
    var n :| 0 < n < |k| - 1 && k[n] == ' ' && NoSpace(k[..n]) && NoSpace(k[n + 1..]);
    var a, b := k[..n], k[n + 1..];
    VisibleIsOneLine(a);
    VisibleIsOneLine(b);
    PrintableIsNoBreak(' ');
    forall i | 0 <= i < |k| ensures !IsLineBreak(k[i]) {
      assert i < n ==> k[i] == a[i];
      assert i > n ==> k[i] == b[i - n - 1];
    }
  }

  lemma ProperRenderIsOneLine(key: AuthorizedKey)
    requires ProperKey(key)
    ensures OneLine(key.Render())
  {
    hide IsLineBreak, AuthorizedKey.Render;
    VisibleIsOneLine(key.comment);
    TwoFieldsOneLine(key.publicKey);
    RenderIsOneLine(key);
  }

  lemma RenderProper(key: AuthorizedKey)
    requires ProperKey(key)
    ensures OneLine(key.Render())
    ensures CommentOf(key.Render()) == Some(key.comment)
    ensures KeyBlobOf(key.Render()) == Some(key.publicKey)
    ensures !KeptBy(key, key.Render())
  {
    hide CommentOf, KeyBlobOf, OneLine, TwoFields, AuthorizedKey.Render;
    ProperRenderIsOneLine(key);
    CommentOfRender(key);
    KeyBlobOfRender(key);
  }

  // ---- the options of a line, as they are read ----

  /** The part before the first such character outside double quotes. */
  function Before(s: string, stop: char, quoted: bool): string {
    if s == [] || (s[0] == stop && !quoted) then []
    else [s[0]] + Before(s[1..], stop, quoted != (s[0] == '"'))
  }

  /** The options of a line: its first field, taken apart at the commas outside quotes. */
  function OptionsIn(line: string): seq<string> {
    Apart(Before(line, ' ', false), false)
  }

  function Apart(s: string, quoted: bool): (parts: seq<string>)
    ensures |parts| >= 1
  {
    if s == [] then [[]]
    else
      var rest := Apart(s[1..], quoted != (s[0] == '"'));
      if s[0] == ',' && !quoted then [[]] + rest else [[s[0]] + rest[0]] + rest[1..]
  }

  /** The quoted value of a `from` option. */
  function FromOf(option: string): Option<string> {
    if |option| >= 7 && option[..6] == "from=\"" && option[|option| - 1] == '"' then Some(option[6..|option| - 1])
    else None
  }

  predicate Unquoted(s: string) {
    '"' !in s
  }

  /** Inside quotes, or without the stop, text is passed over whole. */
  lemma {:induction false} BeforePasses(s: string, rest: string, stop: char, quoted: bool)
    requires Unquoted(s) && (quoted || stop !in s)
    ensures Before(s + rest, stop, quoted) == s + Before(rest, stop, quoted)
  {
    if s == [] {
      assert s + rest == rest;
    } else {
      assert (s + rest)[1..] == s[1..] + rest;
      BeforePasses(s[1..], rest, stop, quoted);
    }
  }

  lemma BeforeQuote(rest: string, stop: char, quoted: bool)
    requires stop != '"'
    ensures Before("\"" + rest, stop, quoted) == "\"" + Before(rest, stop, !quoted)
  {
    assert ("\"" + rest)[1..] == rest;
  }

  lemma {:induction false} ApartPasses(s: string, rest: string, quoted: bool)
    requires Unquoted(s) && (quoted || ',' !in s)
    ensures Apart(s + rest, quoted) == [s + Apart(rest, quoted)[0]] + Apart(rest, quoted)[1..]
  {
    if s == [] {
      assert s + rest == rest && s + Apart(rest, quoted)[0] == Apart(rest, quoted)[0];
    } else {
      assert (s + rest)[1..] == s[1..] + rest && s == [s[0]] + s[1..];
      ApartPasses(s[1..], rest, quoted);
      var first := Apart(rest, quoted)[0];
      assert [s[0]] + (s[1..] + first) == s + first;
    }
  }

  lemma ApartQuote(rest: string, quoted: bool)
    ensures Apart("\"" + rest, quoted) == ["\"" + Apart(rest, !quoted)[0]] + Apart(rest, !quoted)[1..]
  {
    assert ("\"" + rest)[1..] == rest;
  }

  lemma ApartComma(rest: string)
    ensures Apart("," + rest, false) == [[]] + Apart(rest, false)
  {
    assert ("," + rest)[1..] == rest;
  }

  lemma {:induction false} JoinUnquoted(parts: seq<string>)
    requires forall i :: 0 <= i < |parts| ==> Unquoted(parts[i])
    ensures Unquoted(Join(parts, ","))
  {
    if |parts| > 1 {
      JoinUnquoted(parts[1..]);
    }
  }

  lemma ApartOfFrom(inner: string)
    requires Unquoted(inner)
    ensures Apart("from=\"" + inner + "\",restrict", false) == ["from=\"" + inner + "\"", "restrict"]
  {
    hide Apart;
    var tail := "\",restrict";
    assert "from=\"" + inner + "\",restrict" == "from=" + ("\"" + (inner + tail));
    ApartPasses("from=", "\"" + (inner + tail), false);
    ApartQuote(inner + tail, false);
    ApartPasses(inner, tail, true);
    assert tail == "\"" + ("," + "restrict");
    ApartQuote("," + "restrict", true);
    ApartComma("restrict");
    ApartOfRestrict();
    assert "from=" + ("\"" + (inner + ("\"" + []))) == "from=\"" + inner + "\"";
  }

  lemma ApartOfRestrict()
    ensures Apart("restrict", false) == ["restrict"]
  {
    ApartPasses("restrict", "", false);
    assert "restrict" + "" == "restrict";
  }

  lemma FirstField(options: string, rest: string, inner: string)
    requires Unquoted(inner) && options in ["restrict", "from=\"" + inner + "\",restrict"]
    ensures Before(options + " " + rest, ' ', false) == options
  {
    hide Before;
    var tail := " " + rest;
    BeforeEnds(rest);
    if options == "restrict" {
      BeforePasses(options, tail, ' ', false);
      assert options + " " + rest == options + tail;
    } else {
      var close := "\"" + (",restrict" + tail);
      assert options + " " + rest == "from=" + ("\"" + (inner + close));
      BeforePasses("from=", "\"" + (inner + close), ' ', false);
      BeforeQuote(inner + close, ' ', false);
      BeforePasses(inner, close, ' ', true);
      BeforeQuote(",restrict" + tail, ' ', true);
      BeforePasses(",restrict", tail, ' ', false);
      assert "from=" + ("\"" + (inner + ("\"" + (",restrict" + [])))) == options;
    }
  }

  lemma BeforeEnds(rest: string)
    ensures Before(" " + rest, ' ', false) == []
  {}

  lemma RestrictIsNoFrom()
    ensures FromOf("restrict").None?
  {
    assert "restrict"[..6][0] == 'r';
  }

  /** What a printed line lets its key do: it is always restricted, it has no option but
      `restrict` and `from`, and `from` lists exactly the key's addresses, in order, and is
      absent exactly when there is none. */
  lemma OptionsOfRender(key: AuthorizedKey)
    requires forall a :: a in key.fromAddresses ==> Unquoted(a) && ',' !in a
    ensures var options := OptionsIn(key.Render());
      && "restrict" in options
      && (forall o :: o in options ==> o == "restrict" || FromOf(o).Some?)
      && (key.fromAddresses == [] <==> forall o :: o in options ==> FromOf(o).None?)
      && (forall o :: o in options && FromOf(o).Some? ==> Split(FromOf(o).value, ',') == key.fromAddresses)
  {
    hide Before, Apart, Split, Join;
    var inner, rest := Join(key.fromAddresses, ","), key.publicKey + " " + key.comment;
    assert key.Render() == key.Options() + " " + rest;
    JoinUnquoted(key.fromAddresses);
    if key.fromAddresses == [] {
      assert key.Options() == "restrict";
    } else {
      assert key.Options() == "from=\"" + inner + "\",restrict";
    }
    assert key.Options() in ["restrict", "from=\"" + inner + "\",restrict"];
    FirstField(key.Options(), rest, inner);
    RestrictIsNoFrom();
    if key.fromAddresses == [] {
      ApartOfRestrict();
    } else {
      ApartOfFrom(inner);
      var from := "from=\"" + inner + "\"";
      assert from[..6] == "from=\"" && from[6..|from| - 1] == inner;
      SplitJoin(key.fromAddresses, ',');
      assert FromOf(from) == Some(inner) && OptionsIn(key.Render()) == [from, "restrict"];
      assert OptionsIn(key.Render())[0] == from && OptionsIn(key.Render())[1] == "restrict";
    }
  }

  // ---- whose line it is ----

  /** A line is the service's exactly when its first word does not start with `#` and its last
      word starts with the service's prefix. */
  lemma OwnedExactly(line: string)
    ensures Owned(line) <==>
              var words := Words(line);
              words != [] && words[0][0] != '#' && StartsWith(words[|words| - 1], "seapath-webui:")
  {
    hide Words, Strip, IsSpace;
    var stripped := Strip(line);
    WordsOfStrip(line);
    if stripped == [] {
      WordsOfNothing();
    } else {
      StripStart(line);
      WordsOfVisible(stripped);
      FirstWordStarts(stripped);
    }
  }

  lemma FirstWordStarts(s: string)
    requires s != [] && !IsSpace(s[0])
    ensures Words(s) != [] && Words(s)[0][0] == s[0]
  {
    WordStarts(s);
  }

  /** A line commented out is not the service's, whatever follows. */
  lemma CommentedOutIsForeign(blank: string, rest: string)
    requires forall i :: 0 <= i < |blank| ==> IsSpace(blank[i])
    ensures !Owned(blank + "#" + rest)
  {
    hide Words, IsSpace;
    OwnedExactly(blank + "#" + rest);
    assert blank + "#" + rest == blank + ("#" + rest);
    PrintableIsNotSpace('#');
    WordsBehindBlank(blank, "#" + rest);
    FirstWordStarts("#" + rest);
  }

  lemma {:induction false} WordsBehindBlank(blank: string, s: string)
    requires forall i :: 0 <= i < |blank| ==> IsSpace(blank[i])
    ensures Words(blank + s) == Words(s)
  {
    hide Words, IsSpace;
    if blank == [] {
      assert blank + s == s;
    } else {
      WordsAfterSpace(blank + s);
      assert (blank + s)[1..] == blank[1..] + s;
      WordsBehindBlank(blank[1..], s);
    }
  }
}
