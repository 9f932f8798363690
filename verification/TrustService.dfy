/** The trust relation a node has with itself, and what any sequence of edits does to the
    shared file. */
module TrustService {
  import opened Wrappers
  import opened Text
  import opened AuthorizedKeys
  import Sorting

  const LOOPBACK: seq<string> := ["127.0.0.1", "::1"]

  // ---- the restriction list ----

  /** Code point order, as Python compares strings. */
  predicate LexLess(a: string, b: string) {
    b != [] && (a == [] || a[0] < b[0] || (a[0] == b[0] && LexLess(a[1..], b[1..])))
  }

  lemma LexTotal(a: string, b: string)
    ensures LexLess(a, b) || LexLess(b, a) || a == b
    ensures !LexLess(a, a)
  {
    if a != [] && b != [] && a[0] == b[0] {
      LexTotal(a[1..], b[1..]);
      assert a == [a[0]] + a[1..] && b == [b[0]] + b[1..];
    }
  }

  lemma LexTransitive(a: string, b: string, c: string)
    requires LexLess(a, b) && LexLess(b, c)
    ensures LexLess(a, c)
  {
    if a != [] && a[0] == b[0] == c[0] {
      LexTransitive(a[1..], b[1..], c[1..]);
    }
  }

  lemma LexOrder()
    ensures Sorting.StrictTotalOrder(LexLess)
  {
    hide LexLess;
    forall a, b ensures (LexLess(a, b) || LexLess(b, a) || a == b) && !LexLess(a, a) {
      LexTotal(a, b);
    }
    forall a, b, c | LexLess(a, b) && LexLess(b, c) ensures LexLess(a, c) {
      LexTransitive(a, b, c);
    }
  }

  predicate NotEmpty(s: string) {
    s != []
  }

  function RestrictionAddresses(addresses: seq<string>): seq<string> {
    Sorting.SortUnique(LexLess, Filter(NotEmpty, addresses) + LOOPBACK)
  }

  lemma RestrictionMembers(addresses: seq<string>, a: string)
    ensures Sorting.Ascending(LexLess, RestrictionAddresses(addresses))
    ensures a in RestrictionAddresses(addresses) <==> a in LOOPBACK || (a != [] && a in addresses)
  {
    hide LexLess;
    LexOrder();
    Sorting.SortUniqueCorrect(LexLess, Filter(NotEmpty, addresses) + LOOPBACK);
    FilterMembers(NotEmpty, addresses, a);
  }

  /** Order, duplicates, empty entries and loopback addresses do not matter; anything else does. */
  lemma RestrictionIsCanonical(a: seq<string>, b: seq<string>)
    ensures RestrictionAddresses(a) == RestrictionAddresses(b)
       <==> forall s :: s != [] && s !in LOOPBACK ==> (s in a <==> s in b)
  {
    hide LexLess, RestrictionAddresses;
    LexOrder();
    forall s ensures s in RestrictionAddresses(a) <==> s in LOOPBACK || (s != [] && s in a) {
      RestrictionMembers(a, s);
    }
    forall s ensures s in RestrictionAddresses(b) <==> s in LOOPBACK || (s != [] && s in b) {
      RestrictionMembers(b, s);
    }
    RestrictionMembers(a, []);
    RestrictionMembers(b, []);
    if forall s :: s != [] && s !in LOOPBACK ==> (s in a <==> s in b) {
      Sorting.AscendingUnique(LexLess, RestrictionAddresses(a), RestrictionAddresses(b));
    }
  }

  // ---- the service ----

  function SelfComment(hostname: string): string {
    COMMENT_PREFIX + hostname + "->" + hostname
  }

  function SelfKey(publicKey: string, hostname: string, addresses: seq<string>): AuthorizedKey {
    AuthorizedKey(SelfComment(hostname), publicKey, RestrictionAddresses(addresses))
  }

  class TrustService {
    const keys: AuthorizedKeysFile
    /** The key pair on disk, generated on first use and never again. */
    var publicKey: Option<string>

    constructor (keys: AuthorizedKeysFile)
      ensures this.keys == keys && publicKey == None
    {
      this.keys := keys;
      publicKey := None;
    }

    method EnsureSelfTrust(hostname: string, addresses: seq<string>, generated: string)
      returns (changed: Result<bool, MissingAccount>)
      modifies this, keys
      ensures publicKey == if old(publicKey).Some? then old(publicKey) else Some(generated)
      ensures changed.Ok? <==> old(keys.file).Reachable()
      ensures changed.Err? ==> keys.file == old(keys.file)
      ensures changed.Ok? ==>
        var lines := Lines(old(keys.file).Text());
        changed.value == (InstallLines(lines, SelfKey(publicKey.value, hostname, addresses)) != lines)
      ensures changed == Ok(false) ==> keys.file == old(keys.file)
      ensures changed.Ok? ==>
        keys.file.Text() == InstallText(old(keys.file).Text(), SelfKey(publicKey.value, hostname, addresses))
    {
      hide InstallText, InstallLines;
      if publicKey.None? {
        publicKey := Some(generated);
      }
      changed := keys.Install(SelfKey(publicKey.value, hostname, addresses));
    }

    method Revoke(comment: string) returns (removed: Result<bool, MissingAccount>)
      modifies keys
      ensures removed.Ok? <==> old(keys.file).Reachable()
      ensures removed != Ok(true) ==> keys.file == old(keys.file)
      ensures removed.Ok? ==> keys.file.Text() == RemoveText(old(keys.file).Text(), comment)
    {
      hide RemoveText;
      removed := keys.Remove(comment);
    }

    /** Whether the self relation is in the file right now; `None` before a key exists. */
    method SelfTrusted(hostname: string) returns (shown: Result<Option<bool>, MissingAccount>)
      ensures shown.Ok? <==> keys.file.Reachable()
      ensures shown.Ok? && publicKey.None? ==> shown.value == None
      ensures shown.Ok? && publicKey.Some? ==>
                shown.value == Some(SelfComment(hostname) in CommentsIn(Lines(keys.file.Text())))
    {
      hide CommentsIn, Lines;
      var present := keys.Installed();
      if present.Err? {
        return Err(present.error);
      }
      if publicKey.None? {
        return Ok(None);
      }
      shown := Ok(Some(SelfComment(hostname) in present.value));
    }
  }

  // ---- filtering ----

  lemma {:induction false} FilterMembers<T>(p: T -> bool, s: seq<T>, x: T)
    ensures x in Filter(p, s) <==> x in s && p(x)
  {
    if s != [] {
      FilterMembers(p, s[1..], x);
      assert s == [s[0]] + s[1..];
    }
  }

  lemma FilterCons<T>(p: T -> bool, x: T, rest: seq<T>)
    ensures Filter(p, [x] + rest) == (if p(x) then [x] else []) + Filter(p, rest)
  {
    assert ([x] + rest)[1..] == rest;
  }

  lemma {:induction false} FilterConcat<T>(p: T -> bool, a: seq<T>, b: seq<T>)
    ensures Filter(p, a + b) == Filter(p, a) + Filter(p, b)
  {
    if a == [] {
      assert a + b == b;
    } else {
      var x, rest := a[0], a[1..];
      FilterConcat(p, rest, b);
      FilterCons(p, x, rest);
      FilterCons(p, x, rest + b);
      hide Filter;
      assert a == [x] + rest && a + b == [x] + (rest + b);
    }
  }

  lemma {:induction false} FilterCommutes<T>(p: T -> bool, q: T -> bool, s: seq<T>)
    ensures Filter(p, Filter(q, s)) == Filter(q, Filter(p, s))
  {
    if s != [] {
      FilterCommutes(p, q, s[1..]);
      FilterHead(p, q, s);
      FilterHead(q, p, s);
    }
  }

  lemma FilterHead<T>(p: T -> bool, q: T -> bool, s: seq<T>)
    requires s != []
    ensures Filter(p, Filter(q, s)) == (if p(s[0]) && q(s[0]) then [s[0]] else []) + Filter(p, Filter(q, s[1..]))
  {
    FilterConcat(p, if q(s[0]) then [s[0]] else [], Filter(q, s[1..]));
  }

  lemma {:induction false} FilterAbsorbs<T>(p: T -> bool, q: T -> bool, s: seq<T>)
    requires forall x :: x in s && p(x) ==> q(x)
    ensures Filter(p, Filter(q, s)) == Filter(p, s)
  {
    if s != [] {
      FilterAbsorbs(p, q, s[1..]);
      FilterHead(p, q, s);
    }
  }

  lemma {:induction false} FilterAll<T>(p: T -> bool, s: seq<T>)
    ensures |Filter(p, s)| <= |s|
    ensures Filter(p, s) == s <==> forall x :: x in s ==> p(x)
    ensures Filter(p, s) == s <==> |Filter(p, s)| == |s|
  {
    if s != [] {
      FilterAll(p, s[1..]);
      assert s == [s[0]] + s[1..];
    }
  }

  lemma FilterNone<T>(p: T -> bool, s: seq<T>)
    requires forall x :: x in s ==> !p(x)
    ensures Filter(p, s) == []
  {
    if Filter(p, s) != [] {
      FilterMembers(p, s, Filter(p, s)[0]);
    }
  }

  // ---- one edit ----

  ghost predicate AllOneLine(lines: seq<string>) {
    forall i :: 0 <= i < |lines| ==> OneLine(lines[i])
  }

  lemma FilterOneLine(p: string -> bool, lines: seq<string>)
    requires AllOneLine(lines)
    ensures AllOneLine(Filter(p, lines))
  {
    hide OneLine;
    forall i | 0 <= i < |Filter(p, lines)| ensures OneLine(Filter(p, lines)[i]) {
      FilterMembers(p, lines, Filter(p, lines)[i]);
    }
  }

  /** The lines read after an edit are the lines the edit produced. */
  lemma LinesOfRewritten(text: string, lines: seq<string>)
    requires AllOneLine(lines)
    ensures Lines(Rewritten(text, lines)) == lines
  {
    hide OneLine, Lines, Unlines;
    LinesOfUnlines(lines);
  }

  lemma InstallOneLine(text: string, key: AuthorizedKey)
    requires OneLine(key.Render())
    ensures Lines(InstallText(text, key)) == InstallLines(Lines(text), key)
  {
    hide OneLine, Lines, Rewritten, AuthorizedKey.Render, Keeping, Filter;
    FilterOneLine(Keeping(key), Lines(text));
    LinesOfRewritten(text, InstallLines(Lines(text), key));
  }

  lemma LinesOfInstall(text: string, key: AuthorizedKey)
    requires ProperKey(key)
    ensures Lines(InstallText(text, key)) == InstallLines(Lines(text), key)
  {
    hide OneLine, Lines, ProperKey, AuthorizedKey.Render, InstallText, InstallLines;
    RenderProper(key);
    InstallOneLine(text, key);
  }

  lemma LinesOfRemove(text: string, comment: string)
    ensures Lines(RemoveText(text, comment)) == RemoveLines(Lines(text), comment)
  {
    hide OneLine, Lines, Rewritten, Excluding, Filter;
    FilterOneLine(Excluding(comment), Lines(text));
    LinesOfRewritten(text, RemoveLines(Lines(text), comment));
  }

  lemma OneItem<T>(p: T -> bool, x: T)
    ensures Filter(p, [x]) == if p(x) then [x] else []
  {}

  /** An install leaves exactly the kept owned lines and the new one; foreign lines stay. */
  lemma InstallSplits(lines: seq<string>, key: AuthorizedKey)
    requires ProperKey(key)
    ensures ForeignLines(InstallLines(lines, key)) == ForeignLines(lines)
    ensures OwnedLines(InstallLines(lines, key)) == Filter(Keeping(key), OwnedLines(lines)) + [key.Render()]
  {
    hide CommentOf, KeyBlobOf, ProperKey, AuthorizedKey.Render;
    RenderProper(key);
    var foreign := (line: string) => !Owned(line);
    FilterConcat(foreign, Filter(Keeping(key), lines), [key.Render()]);
    FilterConcat(Owned, Filter(Keeping(key), lines), [key.Render()]);
    OneItem(foreign, key.Render());
    OneItem(Owned, key.Render());
    FilterAbsorbs(foreign, Keeping(key), lines);
    FilterCommutes(Owned, Keeping(key), lines);
  }

  lemma RemoveSplits(lines: seq<string>, comment: string)
    ensures ForeignLines(RemoveLines(lines, comment)) == ForeignLines(lines)
    ensures OwnedLines(RemoveLines(lines, comment)) == Filter(Excluding(comment), OwnedLines(lines))
  {
    hide CommentOf;
    FilterAbsorbs((line: string) => !Owned(line), Excluding(comment), lines);
    FilterCommutes(Owned, Excluding(comment), lines);
  }

  /** A removal leaves exactly the lines that do not carry that comment. */
  lemma RemoveKeepsOthers(lines: seq<string>, comment: string, line: string)
    ensures line in RemoveLines(lines, comment) <==> line in lines && CommentOf(line) != Some(comment)
    ensures comment !in CommentsIn(RemoveLines(lines, comment))
  {
    hide CommentOf, CommentsIn;
    FilterMembers(Excluding(comment), lines, line);
    CommentsInMembers(RemoveLines(lines, comment), comment);
    forall other | other in RemoveLines(lines, comment) ensures CommentOf(other) != Some(comment) {
      FilterMembers(Excluding(comment), lines, other);
    }
  }

  // ---- any sequence of edits ----

  datatype Operation = Install(key: AuthorizedKey) | Remove(comment: string)

  function Apply(text: string, op: Operation): string {
    match op
    case Install(key) => InstallText(text, key)
    case Remove(comment) => RemoveText(text, comment)
  }

  function Run(text: string, ops: seq<Operation>): string {
    if ops == [] then text else Apply(Run(text, ops[..|ops| - 1]), ops[|ops| - 1])
  }

  ghost predicate ProperOps(ops: seq<Operation>) {
    forall i :: 0 <= i < |ops| && ops[i].Install? ==> ProperKey(ops[i].key)
  }

  /** Whatever the service does, the lines it does not own keep their content and order. */
  lemma {:induction false} ForeignLinesSurvive(text: string, ops: seq<Operation>)
    requires ProperOps(ops)
    ensures ForeignLines(Lines(Run(text, ops))) == ForeignLines(Lines(text))
  {
    hide ProperKey, InstallText, RemoveText, InstallLines, RemoveLines, Lines, ForeignLines;
    if ops != [] {
      var before, op := Run(text, ops[..|ops| - 1]), ops[|ops| - 1];
      ForeignLinesSurvive(text, ops[..|ops| - 1]);
      match op
      case Install(key) =>
        LinesOfInstall(before, key);
        InstallSplits(Lines(before), key);
      case Remove(comment) =>
        LinesOfRemove(before, comment);
        RemoveSplits(Lines(before), comment);
    }
  }

  // ---- the site's lines, whatever is installed ----

  lemma LastUnlines(last: string)
    ensures Unlines([last]) == last + "\n"
  {}

  /** Lines written and read back, the last of which may break into several. */
  lemma {:induction false} LinesOfUnlinesLast(lines: seq<string>, last: string)
    requires AllOneLine(lines)
    ensures Lines(Unlines(lines + [last])) == lines + Lines(last + "\n")
  {
    hide OneLine, Lines, Unlines;
    if lines == [] {
      LastUnlines(last);
      assert lines + [last] == [last] && Unlines([last]) == last + "\n";
    } else {
      var line, rest := lines[0], lines[1..];
      assert lines + [last] == [line] + (rest + [last]);
      UnlinesCons(line, rest + [last]);
      LinesOfUnlinesLast(rest, last);
      LinesCons(line, Unlines(rest + [last]));
    }
  }

  /** The lines an installed key is read back as: one, unless something in it breaks the line. */
  function Fragments(key: AuthorizedKey): seq<string> {
    Lines(key.Render() + "\n")
  }

  lemma OneFragment(key: AuthorizedKey)
    requires OneLine(key.Render())
    ensures Fragments(key) == [key.Render()]
  {
    hide OneLine, AuthorizedKey.Render;
    LinesCons(key.Render(), "");
    assert key.Render() + "\n" + "" == key.Render() + "\n";
  }

  /** Whatever key is installed, the lines read next are the kept ones and then the key's. */
  lemma InstallReads(text: string, key: AuthorizedKey)
    ensures Lines(InstallText(text, key)) == Filter(Keeping(key), Lines(text)) + Fragments(key)
  {
    hide OneLine, Lines, Keeping, Filter, AuthorizedKey.Render, Unlines, Fragments;
    var kept, lines := Filter(Keeping(key), Lines(text)), Lines(text);
    FilterOneLine(Keeping(key), lines);
    if kept + [key.Render()] == lines {
      assert lines[|kept|] == key.Render();
      OneFragment(key);
    } else {
      LinesOfUnlinesLast(kept, key.Render());
      FragmentsAre(key);
    }
  }

  lemma FragmentsAre(key: AuthorizedKey)
    ensures Fragments(key) == Lines(key.Render() + "\n")
  {}

  /** Over any sequence of edits, with any host name, key and addresses, the lines at the start
      that the service does not own come first among those it does not own at the end, with the
      same content and order: nothing of the site's is changed, lost or overtaken. */
  lemma {:induction false} SiteLinesSurvive(text: string, ops: seq<Operation>)
    ensures ForeignLines(Lines(text)) <= ForeignLines(Lines(Run(text, ops)))
  {
    hide InstallText, RemoveText, RemoveLines, Lines, Filter, Keeping, CommentOf, KeyBlobOf;
    if ops != [] {
      var before, op := Run(text, ops[..|ops| - 1]), ops[|ops| - 1];
      SiteLinesSurvive(text, ops[..|ops| - 1]);
      match op
      case Install(key) => InstallKeepsSite(before, key);
      case Remove(comment) =>
        LinesOfRemove(before, comment);
        RemoveSplits(Lines(before), comment);
    }
  }

  lemma InstallKeepsSite(text: string, key: AuthorizedKey)
    ensures ForeignLines(Lines(text)) <= ForeignLines(Lines(InstallText(text, key)))
  {
    hide InstallText, Lines, CommentOf, KeyBlobOf;
    var foreign := (line: string) => !Owned(line);
    var kept, after := Filter(Keeping(key), Lines(text)), Lines(InstallText(text, key));
    InstallReads(text, key);
    assert after == kept + after[|kept|..];
    FilterConcat(foreign, kept, after[|kept|..]);
    FilterAbsorbs(foreign, Keeping(key), Lines(text));
  }

  /** Every install in the sequence is of the node's one key, under any host name. */
  ghost predicate SameKey(ops: seq<Operation>, publicKey: string) {
    forall i :: 0 <= i < |ops| && ops[i].Install? ==> ops[i].key.publicKey == publicKey
  }

  ghost predicate AllCarry(lines: seq<string>, publicKey: string) {
    forall line :: line in lines ==> CommentOf(line).Some? && KeyBlobOf(line) == Some(publicKey)
  }

  lemma InstallReplacesOwn(lines: seq<string>, key: AuthorizedKey)
    requires ProperKey(key) && AllCarry(OwnedLines(lines), key.publicKey)
    ensures OwnedLines(InstallLines(lines, key)) == [key.Render()]
    ensures AllCarry(OwnedLines(InstallLines(lines, key)), key.publicKey)
  {
    hide CommentOf, KeyBlobOf, ProperKey, AuthorizedKey.Render, OwnedLines, InstallLines;
    RenderProper(key);
    InstallSplits(lines, key);
    FilterNone(Keeping(key), OwnedLines(lines));
  }

  lemma RemoveKeepsFew(lines: seq<string>, comment: string, publicKey: string)
    requires AllCarry(OwnedLines(lines), publicKey)
    ensures |OwnedLines(RemoveLines(lines, comment))| <= |OwnedLines(lines)|
    ensures AllCarry(OwnedLines(RemoveLines(lines, comment)), publicKey)
  {
    hide CommentOf, KeyBlobOf, OwnedLines, RemoveLines, Excluding;
    RemoveSplits(lines, comment);
    FilterAll(Excluding(comment), OwnedLines(lines));
    forall line | line in OwnedLines(RemoveLines(lines, comment)) ensures line in OwnedLines(lines) {
      FilterMembers(Excluding(comment), OwnedLines(lines), line);
    }
  }

  /** With one key, whose lines are the only owned ones at the start, there is never more
      than one owned line once an install has happened, renames included; right after an
      install it is the installed line. */
  lemma {:induction false} OneOwnedLine(text: string, ops: seq<Operation>, publicKey: string)
    requires ProperOps(ops) && SameKey(ops, publicKey)
    requires AllCarry(OwnedLines(Lines(text)), publicKey)
    ensures AllCarry(OwnedLines(Lines(Run(text, ops))), publicKey)
    ensures |OwnedLines(Lines(text))| <= 1 || (exists i :: 0 <= i < |ops| && ops[i].Install?) ==>
              |OwnedLines(Lines(Run(text, ops)))| <= 1
    ensures ops != [] && ops[|ops| - 1].Install? ==>
              OwnedLines(Lines(Run(text, ops))) == [ops[|ops| - 1].key.Render()]
  {
    hide ProperKey, InstallText, RemoveText, InstallLines, RemoveLines, Lines, OwnedLines, AllCarry;
    if ops != [] {
      var init, op := ops[..|ops| - 1], ops[|ops| - 1];
      var before := Run(text, init);
      OneOwnedLine(text, init, publicKey);
      match op
      case Install(key) =>
        LinesOfInstall(before, key);
        InstallReplacesOwn(Lines(before), key);
      case Remove(comment) =>
        LinesOfRemove(before, comment);
        RemoveKeepsFew(Lines(before), comment, publicKey);
        if i :| 0 <= i < |ops| && ops[i].Install? {
          assert init[i] == ops[i];
        }
    }
  }

  // ---- repeated and undone installs ----

  /** A second install of the same key finds nothing to change. */
  lemma InstallIsIdempotent(text: string, key: AuthorizedKey)
    requires ProperKey(key)
    ensures InstallLines(Lines(InstallText(text, key)), key) == Lines(InstallText(text, key))
    ensures InstallText(InstallText(text, key), key) == InstallText(text, key)
  {
    hide CommentOf, KeyBlobOf, ProperKey, AuthorizedKey.Render, Lines, Unlines;
    LinesOfInstall(text, key);
    RenderProper(key);
    var kept := Filter(Keeping(key), Lines(text));
    FilterConcat(Keeping(key), kept, [key.Render()]);
    FilterAbsorbs(Keeping(key), Keeping(key), Lines(text));
    OneItem(Keeping(key), key.Render());
  }

  /** Removing what was installed restores the file byte for byte exactly when the file
      was newline-normalised and no owned line had the same comment or key. */
  lemma RemoveUndoesInstall(text: string, key: AuthorizedKey)
    requires ProperKey(key)
    ensures RemoveText(InstallText(text, key), key.comment) == text
       <==> Normalised(text) && forall line :: line in Lines(text) ==> KeptBy(key, line)
  {
    hide CommentOf, KeyBlobOf, ProperKey, AuthorizedKey.Render, Lines, Unlines, Normalised;
    var lines := Lines(text);
    var kept := Filter(Keeping(key), lines);
    LinesOfInstall(text, key);
    LinesOfRemove(InstallText(text, key), key.comment);
    RemoveAfterInstall(lines, key);
    FilterAll(Keeping(key), lines);
    UnlinesOfLines(text);
  }

  lemma RemoveAfterInstall(lines: seq<string>, key: AuthorizedKey)
    requires ProperKey(key)
    ensures RemoveLines(InstallLines(lines, key), key.comment) == Filter(Keeping(key), lines)
  {
    hide CommentOf, KeyBlobOf, ProperKey, AuthorizedKey.Render;
    RenderProper(key);
    var kept := Filter(Keeping(key), lines);
    FilterConcat(Excluding(key.comment), kept, [key.Render()]);
    OneItem(Excluding(key.comment), key.Render());
    forall line | line in kept ensures Excluding(key.comment)(line) {
      FilterMembers(Keeping(key), lines, line);
    }
    FilterAll(Excluding(key.comment), kept);
  }

  // ---- the self relation ----

  lemma ProperSelfComment(hostname: string)
    ensures ProperComment(SelfComment(hostname)) <==> NoSpace(hostname)
  {
    hide IsSpace;
    var comment := SelfComment(hostname);
    forall c | c in COMMENT_PREFIX || c in "->" ensures !IsSpace(c) {
      PrintableIsNotSpace(c);
    }
    if NoSpace(comment) {
      forall i | 0 <= i < |hostname| ensures !IsSpace(hostname[i]) {
        assert comment[|COMMENT_PREFIX| + i] == hostname[i];
      }
    }
  }

  /** The trust view shows the self relation after it was provisioned exactly when the
      host name has no white space. */
  lemma SelfTrustShown(text: string, publicKey: string, hostname: string, addresses: seq<string>)
    requires TwoFields(publicKey)
    requires forall a :: a in addresses ==> OneLine(a)
    ensures SelfComment(hostname) in CommentsIn(Lines(InstallText(text, SelfKey(publicKey, hostname, addresses)))) <==>
              NoSpace(hostname)
  {
    hide CommentOf, CommentsIn, Lines, OneLine, NoSpace, TwoFields, InstallText, RestrictionAddresses,
      AuthorizedKey.Render, SelfComment;
    var key := SelfKey(publicKey, hostname, addresses);
    var after := Lines(InstallText(text, key));
    ProperSelfComment(hostname);
    CommentsInMembers(after, SelfComment(hostname));
    if NoSpace(hostname) {
      RestrictionOneLine(addresses);
      LinesOfInstall(text, key);
      RenderProper(key);
      assert after[|after| - 1] == key.Render();
    }
  }

  lemma RestrictionOneLine(addresses: seq<string>)
    requires forall a :: a in addresses ==> OneLine(a)
    ensures forall i :: 0 <= i < |RestrictionAddresses(addresses)| ==> OneLine(RestrictionAddresses(addresses)[i])
  {
    hide IsLineBreak, RestrictionAddresses;
    forall c | c in LOOPBACK[0] || c in LOOPBACK[1] ensures !IsLineBreak(c) {
      PrintableIsNoBreak(c);
    }
    forall i | 0 <= i < |RestrictionAddresses(addresses)| ensures OneLine(RestrictionAddresses(addresses)[i]) {
      RestrictionMembers(addresses, RestrictionAddresses(addresses)[i]);
    }
  }

  // ---- starting again and again ----

  /** What is left of a line that follows white space only. */
  lemma {:induction false} WordsAfterBlank(blank: string, w: string)
    requires Words(blank) == []
    ensures Words(blank + w) == Words(w)
  {
    hide Words;
    if blank == [] {
      assert blank + w == w;
    } else {
      if !IsSpace(blank[0]) {
        WordsOfVisible(blank);
        assert false;
      }
      WordsAfterSpace(blank);
      WordsAfterSpace(blank + w);
      assert (blank + w)[1..] == blank[1..] + w;
      WordsAfterBlank(blank[1..], w);
    }
  }

  /** No word of the host name carries the service's prefix. */
  ghost predicate PlainWords(hostname: string) {
    forall w :: w in Words(hostname) ==> !StartsWith(w, COMMENT_PREFIX)
  }

  /** With white space in the host name, the last word of the comment is a word of the host
      name, or its first word behind the arrow. */
  lemma LastWordOfComment(hostname: string)
    requires !NoSpace(hostname)
    ensures var words := Words(SelfComment(hostname));
            words != [] && (words[|words| - 1] in Words(hostname) || StartsWith(words[|words| - 1], "->"))
  {
    hide Words, IsSpace;
    var n := WordLength(hostname);
    var t, c, rest := hostname[..n], hostname[n], hostname[n + 1..];
    var tail := rest + ("->" + t);
    assert hostname == t + [c] + rest;
    assert SelfComment(hostname) == (COMMENT_PREFIX + t) + [c] + (tail + [c] + rest);
    WordsConcat(COMMENT_PREFIX + t, c, tail + [c] + rest);
    WordsConcat(tail, c, rest);
    WordsConcat(t, c, rest);
    if Words(rest) != [] {
      assert Words(rest)[|Words(rest)| - 1] in Words(hostname);
    } else {
      WordsAfterBlank(rest, "->" + t);
      PrintableIsNotSpace('-');
      PrintableIsNotSpace('>');
      WordsOfOne("->" + t);
      assert Words(tail) == ["->" + t];
    }
  }

  lemma SpacedIsForeign(key: AuthorizedKey, hostname: string)
    requires key.comment == SelfComment(hostname) && !NoSpace(hostname) && PlainWords(hostname)
    ensures !Owned(key.Render())
  {
    hide Words, Strip, IsSpace, KeyBlobOf, SelfComment;
    var line := key.Render();
    RenderStart(key);
    WordsOfRender(key);
    WordsOfStrip(line);
    LastWordOfComment(hostname);
    var fields, words := Words(Strip(line)), Words(key.comment);
    assert fields[|fields| - 1] == words[|words| - 1];
    assert "->"[0] != COMMENT_PREFIX[0];
  }

  /** Installing twice is installing once exactly when the new line is recognised: else each
      install appends one more. */
  lemma InstallTwice(lines: seq<string>, key: AuthorizedKey)
    ensures InstallLines(InstallLines(lines, key), key) ==
              InstallLines(lines, key) + if KeptBy(key, key.Render()) then [key.Render()] else []
  {
    hide CommentOf, KeyBlobOf, AuthorizedKey.Render;
    var kept := Filter(Keeping(key), lines);
    FilterConcat(Keeping(key), kept, [key.Render()]);
    FilterAbsorbs(Keeping(key), Keeping(key), lines);
    OneItem(Keeping(key), key.Render());
  }

  lemma SelfLineRecognised(publicKey: string, hostname: string, addresses: seq<string>)
    ensures var key := SelfKey(publicKey, hostname, addresses);
            !KeptBy(key, key.Render()) <==>
              NoSpace(hostname) || (Owned(key.Render()) && KeyBlobOf(key.Render()) == Some(publicKey))
    ensures PlainWords(hostname) ==>
              var key := SelfKey(publicKey, hostname, addresses);
              !KeptBy(key, key.Render()) <==> NoSpace(hostname)
  {
    hide CommentOf, KeyBlobOf, AuthorizedKey.Render, SelfComment, PlainWords, RestrictionAddresses;
    var key := SelfKey(publicKey, hostname, addresses);
    CommentOfRender(key);
    ProperSelfComment(hostname);
    if !NoSpace(hostname) && PlainWords(hostname) {
      SpacedIsForeign(key, hostname);
    }
  }

  /** `ensure_self_trust` is idempotent exactly when the host name has no white space, unless a
      word of the host name itself carries the prefix and the words before it spell the key. */
  lemma SelfTrustIsIdempotent(lines: seq<string>, publicKey: string, hostname: string, addresses: seq<string>)
    ensures var key := SelfKey(publicKey, hostname, addresses);
            InstallLines(InstallLines(lines, key), key) == InstallLines(lines, key) <==>
              NoSpace(hostname) || (Owned(key.Render()) && KeyBlobOf(key.Render()) == Some(publicKey))
    ensures PlainWords(hostname) ==>
              var key := SelfKey(publicKey, hostname, addresses);
              InstallLines(InstallLines(lines, key), key) == InstallLines(lines, key) <==> NoSpace(hostname)
  {
    hide CommentOf, KeyBlobOf, AuthorizedKey.Render, InstallLines, PlainWords, SelfKey;
    var key := SelfKey(publicKey, hostname, addresses);
    InstallTwice(lines, key);
    SelfLineRecognised(publicKey, hostname, addresses);
  }

  /** The file after `n` starts of the service, each of which reads it again. */
  function Started(text: string, key: AuthorizedKey, n: nat): string {
    if n == 0 then text else InstallText(Started(text, key, n - 1), key)
  }

  function Repeated(lines: seq<string>, n: nat): seq<string> {
    if n == 0 then [] else Repeated(lines, n - 1) + lines
  }

  lemma {:induction false} FilterRepeated(p: string -> bool, lines: seq<string>, n: nat)
    requires Filter(p, lines) == lines
    ensures Filter(p, Repeated(lines, n)) == Repeated(lines, n)
  {
    if n > 0 {
      FilterRepeated(p, lines, n - 1);
      FilterConcat(p, Repeated(lines, n - 1), lines);
    }
  }

  /** After any number of starts: the kept lines, for each start but the last what the next one
      kept of its lines, and the lines of the last. */
  lemma {:induction false} StartsAppend(text: string, key: AuthorizedKey, n: nat)
    requires n > 0
    ensures Lines(Started(text, key, n)) ==
              Filter(Keeping(key), Lines(text)) + Repeated(Filter(Keeping(key), Fragments(key)), n - 1) + Fragments(key)
  {
    hide Lines, InstallText, Fragments, Keeping, Filter;
    var p, before := Keeping(key), Started(text, key, n - 1);
    var kept, ours := Filter(p, Lines(text)), Filter(p, Fragments(key));
    InstallReads(before, key);
    if n > 1 {
      StartsAppend(text, key, n - 1);
      var left := Repeated(ours, n - 2);
      FilterConcat(p, kept + left, Fragments(key));
      FilterConcat(p, kept, left);
      FilterAbsorbs(p, p, Lines(text));
      FilterAbsorbs(p, p, Fragments(key));
      FilterRepeated(p, ours, n - 2);
      assert kept + left + ours == kept + (left + ours);
    }
  }

  lemma SelfLineIsOneLine(publicKey: string, hostname: string, addresses: seq<string>)
    requires OneLine(publicKey) && OneLine(hostname) && forall a :: a in addresses ==> OneLine(a)
    ensures OneLine(SelfKey(publicKey, hostname, addresses).Render())
  {
    hide IsLineBreak, RestrictionAddresses, AuthorizedKey.Render;
    RestrictionOneLine(addresses);
    forall c | c in COMMENT_PREFIX || c in "->" ensures !IsLineBreak(c) {
      PrintableIsNoBreak(c);
    }
    RenderIsOneLine(SelfKey(publicKey, hostname, addresses));
  }

  // ---- a host name that breaks the line ----

  lemma {:induction false} LinesAfterBreak(before: string, c: char, rest: string)
    requires IsLineBreak(c)
    ensures Lines(before + [c] + rest) == Lines(before + [c]) + Lines(rest)
    decreases |before|
  {
    hide IsLineBreak, Lines, LineLength;
    var n := LineLength(before);
    var line := before[..n];
    if n == |before| {
      assert line == before;
      LinesAt(line, c, rest);
      LinesAt(line, c, "");
      NoLines();
      assert before + [c] + "" == before + [c];
    } else {
      var d, after := before[n], before[n + 1..];
      assert before == line + [d] + after;
      assert before + [c] + rest == line + [d] + (after + [c] + rest);
      assert before + [c] == line + [d] + (after + [c]);
      LinesAt(line, d, after + [c] + rest);
      LinesAt(line, d, after + [c]);
      LinesAfterBreak(after, c, rest);
    }
  }

  lemma NoLines()
    ensures Lines("") == []
  {}

  lemma LinesAt(line: string, c: char, rest: string)
    requires OneLine(line) && IsLineBreak(c)
    ensures Lines(line + [c] + rest) == [line] + Lines(rest)
  {
    hide IsLineBreak, LineLength;
    var text := line + [c] + rest;
    assert text == line + ([c] + rest);
    LineLengthOf(line, [c] + rest);
    assert text[..|line|] == line && text[|line| + 1..] == rest;
  }

  lemma {:induction false} LastBreak(s: string) returns (before: string, c: char, after: string)
    requires !OneLine(s)
    ensures s == before + [c] + after && IsLineBreak(c) && OneLine(after)
  {
    hide IsLineBreak;
    var last := s[|s| - 1];
    if IsLineBreak(last) {
      before, c, after := s[..|s| - 1], last, "";
    } else {
      before, c, after := LastBreak(s[..|s| - 1]);
      assert s == before + [c] + (after + [last]);
      after := after + [last];
    }
  }

  /** A line made of plain words only is none of the service's. */
  lemma PlainIsForeign(line: string, hostname: string)
    requires PlainWords(hostname) && forall w :: w in Words(line) ==> w in Words(hostname)
    ensures !Owned(line)
  {
    hide Words, Strip, IsSpace;
    WordsOfStrip(line);
    if Strip(line) != [] {
      StripStart(line);
      WordsOfVisible(Strip(line));
      var fields := Words(Strip(line));
      assert fields[|fields| - 1] in Words(line);
    }
  }

  /** The last line a spaced host name leaves is not recognised. */
  lemma LastFragmentStays(publicKey: string, hostname: string, addresses: seq<string>)
    requires OneLine(publicKey) && (forall a :: a in addresses ==> OneLine(a))
    requires PlainWords(hostname) && !NoSpace(hostname)
    ensures var key := SelfKey(publicKey, hostname, addresses);
            exists line :: line in Fragments(key) && KeptBy(key, line)
  {
    hide OneLine, IsSpace, PlainWords, Words, Lines, CommentOf, KeyBlobOf, RestrictionAddresses, AuthorizedKey.Render;
    var key := SelfKey(publicKey, hostname, addresses);
    if OneLine(hostname) {
      SelfLineIsOneLine(publicKey, hostname, addresses);
      OneFragment(key);
      SpacedIsForeign(key, hostname);
      assert key.Render() in Fragments(key);
    } else {
      var before, c, after := LastBreak(hostname);
      LineBreakIsSpace(c);
      WordsConcat(before, c, after);
      PlainIsForeign(after, hostname);
      var start := RenderEnds(key, before + [c] + after, before, c, after);
      LinesAfterBreak(start, c, after + "\n");
      LinesCons(after, "");
      assert after + "\n" + "" == after + "\n";
      assert key.Render() + "\n" == start + [c] + (after + "\n");
      assert after in Fragments(key);
    }
  }

  lemma RenderEnds(key: AuthorizedKey, hostname: string, before: string, c: char, after: string)
    returns (start: string)
    requires hostname == before + [c] + after && key.comment == SelfComment(hostname)
    ensures key.Render() == start + [c] + after
  {
    start := key.Options() + " " + key.publicKey + " " + COMMENT_PREFIX + hostname + "->" + before;
    assert SelfComment(hostname) == COMMENT_PREFIX + hostname + "->" + before + [c] + after;
    assert key.Render() == key.Options() + " " + key.publicKey + " " + SelfComment(hostname);
  }

  /** On the file itself, read again at each start: each leaves behind what the next one does not
      recognise, which is nothing exactly for a host name without white space, and the whole
      line for one with white space and no line break. So a second start leaves the file alone
      exactly for a host name without white space. */
  lemma StartsAccumulateExactly(text: string, publicKey: string, hostname: string, addresses: seq<string>, n: nat)
    requires OneLine(publicKey) && (forall a :: a in addresses ==> OneLine(a))
    requires PlainWords(hostname) && n > 0
    ensures var key := SelfKey(publicKey, hostname, addresses);
            var kept, left := Filter(Keeping(key), Lines(text)), Filter(Keeping(key), Fragments(key));
      && Lines(Started(text, key, n)) == kept + Repeated(left, n - 1) + Fragments(key)
      && (left == [] <==> NoSpace(hostname))
      && (OneLine(hostname) ==> Fragments(key) == [key.Render()] && (!NoSpace(hostname) ==> left == [key.Render()]))
      && (InstallText(InstallText(text, key), key) == InstallText(text, key) <==> NoSpace(hostname))
  {
    hide OneLine, NoSpace, PlainWords, SelfKey, Lines, InstallText, InstallLines, KeptBy, AuthorizedKey.Render,
      Fragments, Filter;
    var key := SelfKey(publicKey, hostname, addresses);
    StartsAppend(text, key, n);
    WhatIsLeft(publicKey, hostname, addresses);
    SecondInstall(text, key);
  }

  lemma WhatIsLeft(publicKey: string, hostname: string, addresses: seq<string>)
    requires OneLine(publicKey) && (forall a :: a in addresses ==> OneLine(a)) && PlainWords(hostname)
    ensures var key := SelfKey(publicKey, hostname, addresses);
            var left := Filter(Keeping(key), Fragments(key));
      && (left == [] <==> NoSpace(hostname))
      && (OneLine(hostname) ==> Fragments(key) == [key.Render()] && (!NoSpace(hostname) ==> left == [key.Render()]))
  {
    hide OneLine, NoSpace, PlainWords, SelfKey, Lines, KeptBy, AuthorizedKey.Render, Fragments;
    var key := SelfKey(publicKey, hostname, addresses);
    SelfLineRecognised(publicKey, hostname, addresses);
    OneItem(Keeping(key), key.Render());
    if NoSpace(hostname) {
      VisibleIsOneLine(hostname);
    }
    if OneLine(hostname) {
      SelfLineIsOneLine(publicKey, hostname, addresses);
      OneFragment(key);
    } else {
      LastFragmentStays(publicKey, hostname, addresses);
      var line :| line in Fragments(key) && KeptBy(key, line);
      FilterMembers(Keeping(key), Fragments(key), line);
    }
  }

  /** A second install changes the file exactly when something of the first is kept beside it. */
  lemma SecondInstall(text: string, key: AuthorizedKey)
    ensures InstallText(InstallText(text, key), key) == InstallText(text, key) <==>
              Filter(Keeping(key), Fragments(key)) == []
  {
    hide Lines, Keeping, AuthorizedKey.Render, Fragments, Unlines, Filter;
    var p, first := Keeping(key), InstallText(text, key);
    var kept, left := Filter(p, Lines(text)), Filter(p, Fragments(key));
    InstallReads(text, key);
    InstallReads(first, key);
    FilterConcat(p, kept, Fragments(key));
    FilterAbsorbs(p, p, Lines(text));
    assert Filter(p, Lines(first)) == kept + left;
    if left == [] {
      SameKeptSameFile(text, key);
    } else {
      assert |Lines(InstallText(first, key))| > |Lines(first)|;
    }
  }

  lemma SameKeptSameFile(text: string, key: AuthorizedKey)
    requires Filter(Keeping(key), Lines(InstallText(text, key))) == Filter(Keeping(key), Lines(text))
    ensures InstallText(InstallText(text, key), key) == InstallText(text, key)
  {
    hide Lines, Keeping, AuthorizedKey.Render, Unlines, Filter;
  }

  // ---- what the self relation lets a key do ----

  /** No quote and no comma: the address can be read back from the list. */
  predicate PlainAddress(a: string) {
    Unquoted(a) && ',' !in a
  }

  /** The line a node writes for itself restricts its key, and admits it from the two loopback
      addresses and the addresses given, but for empty ones, and from nowhere else. */
  lemma SelfLineOptions(publicKey: string, hostname: string, addresses: seq<string>)
    requires forall a :: a in addresses ==> PlainAddress(a)
    ensures var options := OptionsIn(SelfKey(publicKey, hostname, addresses).Render());
      && "restrict" in options
      && (forall o :: o in options ==> o == "restrict" || FromOf(o).Some?)
      && (exists o :: o in options && FromOf(o).Some?)
      && (forall o, a :: o in options && FromOf(o).Some? ==>
            (a in Split(FromOf(o).value, ',') <==> a in ["127.0.0.1", "::1"] || (a != "" && a in addresses)))
  {
    hide AuthorizedKey.Render, RestrictionAddresses, OptionsIn, FromOf, Split;
    var key := SelfKey(publicKey, hostname, addresses);
    forall a ensures a in key.fromAddresses <==> a in ["127.0.0.1", "::1"] || (a != "" && a in addresses) {
      RestrictionMembers(addresses, a);
    }
    LoopbackIsPlain();
    assert "::1" in key.fromAddresses;
    OptionsOfRender(key);
  }

  lemma LoopbackIsPlain()
    ensures PlainAddress("127.0.0.1") && PlainAddress("::1")
  {}

  /** So does the line that provisioning leaves at the end of the file. */
  lemma InstalledLineIsRestricted(text: string, publicKey: string, hostname: string, addresses: seq<string>)
    requires OneLine(publicKey) && OneLine(hostname)
    requires forall a :: a in addresses ==> OneLine(a) && PlainAddress(a)
    ensures var lines := Lines(InstallText(text, SelfKey(publicKey, hostname, addresses)));
      && lines != [] && "restrict" in OptionsIn(lines[|lines| - 1])
      && forall o :: o in OptionsIn(lines[|lines| - 1]) ==> o == "restrict" || FromOf(o).Some?
  {
    hide AuthorizedKey.Render, SelfKey, OptionsIn, FromOf, Lines, OneLine, InstallText, PlainAddress;
    var key := SelfKey(publicKey, hostname, addresses);
    SelfLineOptions(publicKey, hostname, addresses);
    SelfLineIsOneLine(publicKey, hostname, addresses);
    InstallOneLine(text, key);
  }

  lemma OptionsOfThree(key: AuthorizedKey, a: string, b: string, c: string)
    requires key.fromAddresses == [a, b, c]
    ensures key.Options() == "from=\"" + a + "," + b + "," + c + "\",restrict"
  {
    JoinThree(a, b, c);
    assert "\"," + "restrict" == "\",restrict";
  }

  /** A self line with three addresses, in full. */
  lemma LineOfThree(a: string, b: string, c: string, publicKey: string, hostname: string)
    ensures AuthorizedKey(SelfComment(hostname), publicKey, [a, b, c]).Render() ==
              "from=\"" + a + "," + b + "," + c + "\",restrict " + publicKey +
              " seapath-webui:" + hostname + "->" + hostname
  {
    hide AuthorizedKey.Options;
    OptionsOfThree(AuthorizedKey(SelfComment(hostname), publicKey, [a, b, c]), a, b, c);
    assert "\",restrict" + " " == "\",restrict ";
    assert " " + COMMENT_PREFIX == " seapath-webui:";
  }

  /** The line of a node named node1 at 192.168.200.121, in full. */
  lemma SelfLineOfNode1(publicKey: string)
    ensures SelfKey(publicKey, "node1", ["192.168.200.121"]).Render() ==
              "from=\"" + "127.0.0.1" + "," + "192.168.200.121" + "," + "::1" + "\",restrict " + publicKey +
              " seapath-webui:" + "node1" + "->" + "node1"
  {
    hide RestrictionAddresses, AuthorizedKey.Render, SelfComment;
    AddressesOfNode1();
    LineOfThree("127.0.0.1", "192.168.200.121", "::1", publicKey, "node1");
  }

  lemma JoinThree(a: string, b: string, c: string)
    ensures Join([a, b, c], ",") == a + "," + (b + "," + c)
  {
    assert [a, b, c][1..] == [b, c] && [b, c][1..] == [c];
    assert Join([c], ",") == c;
    assert Join([b, c], ",") == b + "," + c;
  }

  lemma AddressesOfNode1()
    ensures RestrictionAddresses(["192.168.200.121"]) == ["127.0.0.1", "192.168.200.121", "::1"]
  {
    hide RestrictionAddresses, LexLess;
    var sorted := ["127.0.0.1", "192.168.200.121", "::1"];
    LexOrder();
    OrderOfNode1();
    RestrictionMembers(["192.168.200.121"], "");
    forall a ensures a in RestrictionAddresses(["192.168.200.121"]) <==> a in sorted {
      RestrictionMembers(["192.168.200.121"], a);
    }
    Sorting.AscendingUnique(LexLess, RestrictionAddresses(["192.168.200.121"]), sorted);
  }

  lemma OrderOfNode1()
    ensures Sorting.Ascending(LexLess, ["127.0.0.1", "192.168.200.121", "::1"])
  {
    var a, b, c := "127.0.0.1", "192.168.200.121", "::1";
    assert a[1..][0] == '2' && b[1..][0] == '9';
    assert LexLess(a[1..], b[1..]);
    assert LexLess(a, b) && LexLess(b, c) && LexLess(a, c);
  }
}
