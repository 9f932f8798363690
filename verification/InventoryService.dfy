/** The inventory repository and the service over it: a file, a growing sequence of commits,
    and an optimistic check of the head. */
module InventoryService {
  import opened Wrappers
  import opened InventoryModel
  import Renderer
  import Parser
  import ParserMeaning
  import RoundTrip
  import NormalForm
  import Validation

  /** The author of the entry a node writes about itself. */
  const SEED_AUTHOR: string := "seapath-webui"

  /** What `inventory.yaml` holds. A document's text is its tree in some layout; the renderer
      writes every tree in its own, and layouts of one tree differ in spacing and comments. */
  datatype File = Missing | Blank | Broken(text: string) | Document(tree: Value, layout: nat) {
    predicate SaysNothing() {
      Missing? || Blank?
    }
  }

  const RENDERED_LAYOUT: nat := 0

  /** The text the renderer makes of a tree. */
  function TextOf(tree: Value): File {
    Document(tree, RENDERED_LAYOUT)
  }

  /** `parent` is the head the commit was made on, `read` the head its author sent along. */
  datatype Revision = Revision(parent: Option<nat>, read: Option<nat>, author: string, content: Value)

  /** A commit is named by its position: hashes are distinct and the history only grows. */
  datatype Repo = Repo(file: File, commits: seq<Revision>) {
    function Head(): Option<nat> {
      if commits == [] then None else Some(|commits| - 1)
    }
  }

  /** `NothingToCommit` is git's refusal when only the working file differed from the head. */
  datatype CommitResult = Unchanged | Committed(commit: Revision) | Stale | NothingToCommit

  function CommitResultOf(repo: Repo, content: Value, author: string, expected: Option<nat>): CommitResult {
    if expected.Some? && repo.Head() != expected then Stale
    else if repo.file == TextOf(content) then Unchanged
    else if repo.commits != [] && repo.commits[|repo.commits| - 1].content == content then NothingToCommit
    else Committed(Revision(repo.Head(), expected, author, content))
  }

  function AfterCommit(repo: Repo, content: Value, author: string, expected: Option<nat>): Repo {
    var result := CommitResultOf(repo, content, author, expected);
    match result
    case Stale | Unchanged => repo
    case NothingToCommit => repo.(file := TextOf(content))
    case Committed(commit) => Repo(TextOf(content), repo.commits + [commit])
  }

  class InventoryRepository {
    var file: File
    var commits: seq<Revision>

    constructor (repo: Repo)
      ensures Value() == repo
    {
      file, commits := repo.file, repo.commits;
    }

    function Value(): Repo
      reads this
    {
      Repo(file, commits)
    }

    method Commit(content: Value, author: string, expected: Option<nat>) returns (result: CommitResult)
      modifies this
      ensures result == CommitResultOf(old(Value()), content, author, expected)
      ensures Value() == AfterCommit(old(Value()), content, author, expected)
    {
      var current := Value().Head();
      if expected.Some? && current != expected {
        return Stale;
      }
      if file == TextOf(content) {
        return Unchanged;
      }
      file := TextOf(content);
      if commits != [] && commits[|commits| - 1].content == content {
        return NothingToCommit;
      }
      var commit := Revision(current, expected, author, content);
      commits := commits + [commit];
      return Committed(commit);
    }
  }

  // ---- the service ----

  datatype InventoryState =
    | NotSeeded
    | ParseError(commit: Option<nat>)
    | Seeded(inventory: Inventory, commit: Option<nat>, findings: seq<Validation.Finding>)
    | StateCrashed

  function StateOf(repo: Repo, ip: Validation.Library, py: Parser.Python): InventoryState {
    match repo.file
    case Missing | Blank => NotSeeded
    case Broken(_) => ParseError(repo.Head())
    case Document(tree, _) =>
      match Parser.ParseOf(tree, py)
      case Invalid => ParseError(repo.Head())
      case Crashed => StateCrashed
      case Accepted(inventory) => Seeded(inventory, repo.Head(), Validation.Findings(inventory, ip))
  }

  /** `SaveCrashed` is an exception that is no refusal: a cluster cannot be rendered, or the
      generated message needs a file that cannot be read. */
  datatype SaveResult = Refused(findings: seq<Validation.Finding>) | SaveCrashed | Handed(result: CommitResult)

  ghost function SaveResultOf(repo: Repo, candidate: Inventory, author: string, expected: Option<nat>, ownMessage: bool,
                              ip: Validation.Library, py: Parser.Python): SaveResult {
    if !Validation.Valid(Validation.Findings(candidate, ip)) then Refused(Validation.Findings(candidate, ip))
    else if (!ownMessage && StateOf(repo, ip, py).StateCrashed?) || Renderer.Rendered(candidate).None? then SaveCrashed
    else Handed(CommitResultOf(repo, Renderer.Rendered(candidate).value, author, expected))
  }

  ghost function AfterSave(repo: Repo, candidate: Inventory, author: string, expected: Option<nat>, ownMessage: bool,
                           ip: Validation.Library, py: Parser.Python): Repo {
    if SaveResultOf(repo, candidate, author, expected, ownMessage, ip, py).Handed? then
      AfterCommit(repo, Renderer.Rendered(candidate).value, author, expected)
    else repo
  }

  /** `SeedCrashed` is an exception: git has nothing to commit, or there is no rendering. */
  datatype Seeding = Wrote | LeftAlone | SeedCrashed

  ghost function SeedingOf(repo: Repo, candidate: Option<Inventory>): Seeding {
    if !repo.file.SaysNothing() || candidate.None? then LeftAlone
    else
      var document := Renderer.Rendered(candidate.value);
      if document.None? || CommitResultOf(repo, document.value, SEED_AUTHOR, None).NothingToCommit? then SeedCrashed
      else Wrote
  }

  ghost function AfterSeed(repo: Repo, candidate: Option<Inventory>): Repo {
    if !repo.file.SaysNothing() || candidate.None? || Renderer.Rendered(candidate.value).None? then repo
    else AfterCommit(repo, Renderer.Rendered(candidate.value).value, SEED_AUTHOR, None)
  }

  /** A seed is written only where the file said nothing, is what the file then holds, and is
      reported exactly when there is one more commit. */
  lemma SeedIsHonest(repo: Repo, candidate: Option<Inventory>)
    ensures SeedingOf(repo, candidate) == Wrote <==> |AfterSeed(repo, candidate).commits| == |repo.commits| + 1
    ensures SeedingOf(repo, candidate) == LeftAlone <==> candidate.None? || !(repo.file.Missing? || repo.file.Blank?)
    ensures AfterSeed(repo, candidate) != repo ==>
              && (repo.file.Missing? || repo.file.Blank?) && candidate.Some? && Renderer.Rendered(candidate.value).Some?
              && AfterSeed(repo, candidate).file == TextOf(Renderer.Rendered(candidate.value).value)
    ensures SeedingOf(repo, candidate) == Wrote ==>
              AfterSeed(repo, candidate).commits[|repo.commits|].author == "seapath-webui"
    ensures repo.commits <= AfterSeed(repo, candidate).commits
  {}

  class InventoryService {
    const repository: InventoryRepository
    const ip: Validation.Library
    const py: Parser.Python

    constructor (repository: InventoryRepository, ip: Validation.Library, py: Parser.Python)
      ensures this.repository == repository && this.ip == ip && this.py == py
    {
      this.repository, this.ip, this.py := repository, ip, py;
    }

    method State() returns (state: InventoryState)
      ensures state == StateOf(repository.Value(), ip, py)
    {
      hide Parser.ParseOf, Validation.Findings;
      match repository.file {
        case Missing | Blank => return NotSeeded;
        case Broken(_) => return ParseError(repository.Value().Head());
        case Document(tree, _) =>
          var parsed := Parser.Parse(tree, py);
          match parsed {
            case Invalid => return ParseError(repository.Value().Head());
            case Crashed => return StateCrashed;
            case Accepted(inventory) =>
              var findings := Validation.Validate(inventory, ip);
              return Seeded(inventory, repository.Value().Head(), findings);
          }
      }
    }

    method Save(candidate: Inventory, author: string, expected: Option<nat>, ownMessage: bool)
      returns (result: SaveResult)
      modifies repository
      ensures result == SaveResultOf(old(repository.Value()), candidate, author, expected, ownMessage, ip, py)
      ensures repository.Value() == AfterSave(old(repository.Value()), candidate, author, expected, ownMessage, ip, py)
    {
      hide Validation.Findings, Renderer.Rendered, StateOf, CommitResultOf, AfterCommit;
      var findings := Validation.Validate(candidate, ip);
      if exists i :: 0 <= i < |findings| && Validation.IsError(findings[i]) {
        return Refused(findings);
      }
      if !ownMessage {
        var state := State();
        if state.StateCrashed? {
          return SaveCrashed;
        }
      }
      var document := Renderer.Render(candidate);
      if document.None? {
        return SaveCrashed;
      }
      var handed := repository.Commit(document.value, author, expected);
      return Handed(handed);
    }

    /** The entry a node writes about itself at first boot, when there is no inventory. */
    method EnsureSeed(candidate: Option<Inventory>) returns (seeding: Seeding)
      modifies repository
      ensures seeding == SeedingOf(old(repository.Value()), candidate)
      ensures repository.Value() == AfterSeed(old(repository.Value()), candidate)
    {
      hide Renderer.Rendered;
      if !repository.file.SaysNothing() {
        return LeftAlone;
      }
      if candidate.None? {
        return LeftAlone;
      }
      var document := Renderer.Render(candidate.value);
      if document.None? {
        return SeedCrashed;
      }
      var result := repository.Commit(document.value, SEED_AUTHOR, None);
      return if result.NothingToCommit? then SeedCrashed else Wrote;
    }
  }

  // ---- what each answer means ----

  /** What a commit does, whatever its answer: a stale one touches nothing; every other one leaves
      the file as the text of the candidate, rewriting it exactly when it was another text, and
      adds one commit on the head exactly when moreover the head does not already hold it. */
  lemma CommitMeans(repo: Repo, content: Value, author: string, expected: Option<nat>)
    ensures var result, after := CommitResultOf(repo, content, author, expected),
                                 AfterCommit(repo, content, author, expected);
      && (result.Stale? <==> expected.Some? && expected != repo.Head())
      && (result.Stale? ==> after == repo)
      && (!result.Stale? ==> after.file == Document(content, RENDERED_LAYOUT))
      && (result.Unchanged? <==> !result.Stale? && repo.file == Document(content, RENDERED_LAYOUT))
      && (result.NothingToCommit? <==> !result.Stale? && after.file != repo.file && HeadHolds(repo, content))
      && (result.Committed? <==> after.commits != repo.commits)
      && (result.Committed? ==>
            && !HeadHolds(repo, content) && |after.commits| == |repo.commits| + 1
            && after.commits[..|repo.commits|] == repo.commits
            && after.commits[|repo.commits|] == result.commit
            && result.commit.content == content && result.commit.author == author
            && result.commit.parent == repo.Head() && result.commit.read == expected)
  {}

  predicate HeadHolds(repo: Repo, content: Value) {
    repo.commits != [] && repo.commits[|repo.commits| - 1].content == content
  }

  /** What the state shows: nothing is seeded exactly where the file is missing or blank; an
      error, with the head, exactly for a file that is no document or lists no host; an
      inventory only where the parser accepts the file, with the head and its own findings. */
  lemma StateTells(repo: Repo, ip: Validation.Library, py: Parser.Python)
    ensures var state := StateOf(repo, ip, py);
      && (state.NotSeeded? <==> repo.file.Missing? || repo.file.Blank?)
      && (state.ParseError? <==>
            repo.file.Broken? || (repo.file.Document? && Parser.ParseOf(repo.file.tree, py).Invalid?))
      && (state.ParseError? ==> state.commit == repo.Head())
      && (state.Seeded? <==> repo.file.Document? && Parser.ParseOf(repo.file.tree, py).Accepted?)
      && (state.Seeded? ==>
            && Parser.ParseOf(repo.file.tree, py) == Parser.Accepted(state.inventory)
            && state.commit == repo.Head() && state.findings == Validation.Findings(state.inventory, ip))
  {
    hide Parser.ParseOf, Validation.Findings;
  }

  /** A save is refused exactly for an invalid candidate, with its findings, and touches nothing
      then; it reaches the repository exactly for a valid standalone candidate, unless the
      message it has to make up needs a file that cannot be read. */
  lemma SaveMeans(repo: Repo, candidate: Inventory, author: string, expected: Option<nat>, ownMessage: bool,
                  ip: Validation.Library, py: Parser.Python)
    ensures var result := SaveResultOf(repo, candidate, author, expected, ownMessage, ip, py);
            var after := AfterSave(repo, candidate, author, expected, ownMessage, ip, py);
      && (result.Refused? <==> !Validation.Acceptable(candidate, ip))
      && (result.Refused? ==> result.findings == Validation.Findings(candidate, ip))
      && (result.Handed? <==>
            && Validation.Acceptable(candidate, ip) && candidate.mode.Standalone?
            && (ownMessage || !StateOf(repo, ip, py).StateCrashed?))
      && (!result.Handed? ==> after == repo)
  {
    hide Validation.Findings, Validation.Valid, Validation.Acceptable, StateOf;
    Validation.ValidExactly(candidate, ip);
    RenderedIsStandalone(candidate);
  }

  /** A file that lists a cluster machine is shown as a cluster, and saving what is shown never
      reaches the repository. */
  lemma ClusterIsNeverRewritten(repo: Repo, author: string, expected: Option<nat>, ownMessage: bool,
                                ip: Validation.Library, py: Parser.Python)
    requires StateOf(repo, ip, py).Seeded?
    ensures var inventory := StateOf(repo, ip, py).inventory;
      && repo.file.Document? && repo.file.tree.Mapping?
      && (inventory.mode.Cluster? <==> ParserMeaning.Lists(repo.file.tree.entries, ClusterMachines))
      && (inventory.mode.Cluster? ==>
            && !SaveResultOf(repo, inventory, author, expected, ownMessage, ip, py).Handed?
            && AfterSave(repo, inventory, author, expected, ownMessage, ip, py) == repo)
  {
    hide Parser.ParseOf, Validation.Findings, ParserMeaning.Lists;
    ParserMeaning.ParseAnswers(repo.file.tree, py);
    SaveMeans(repo, StateOf(repo, ip, py).inventory, author, expected, ownMessage, ip, py);
  }

  // ---- what is saved is what is read back ----

  /** After a successful save of a valid canonical candidate, the state is that inventory, the
      current head and the same findings. */
  lemma SavedIsReadBack(repo: Repo, candidate: Inventory, author: string, expected: Option<nat>, ownMessage: bool,
                        ip: Validation.Library, py: Parser.Python)
    requires NormalForm.IsInventory(candidate) && NormalForm.Canonical(candidate)
    requires var result := SaveResultOf(repo, candidate, author, expected, ownMessage, ip, py);
             result.Handed? && (result.result.Committed? || result.result.Unchanged?)
    ensures var after := AfterSave(repo, candidate, author, expected, ownMessage, ip, py);
      && StateOf(after, ip, py) == Seeded(candidate, after.Head(), Validation.Findings(candidate, ip))
      && after.commits == repo.commits + (
           if SaveResultOf(repo, candidate, author, expected, ownMessage, ip, py).result.Committed?
           then [Revision(repo.Head(), expected, author, Renderer.Rendered(candidate).value)] else [])
  {
    hide Renderer.Rendered, Parser.ParseOf, Validation.Findings, NormalForm.IsInventory, NormalForm.Canonical;
    NormalForm.CanonicalReadsBack(candidate, py);
  }

  lemma OneHostIsUniform(candidate: Inventory, ip: Validation.Library)
    requires candidate.mode.Standalone? && Validation.Valid(Validation.Findings(candidate, ip))
    ensures |candidate.hosts| == 1 && NormalForm.UniformRoles(candidate)
  {
    hide Validation.Findings, Validation.Valid, Validation.AcceptableHost;
    Validation.ValidExactly(candidate, ip);
  }

  /** Saving again what the state shows after a successful save, whatever was saved, writes
      nothing and adds no commit. */
  lemma SecondSaveIsUnchanged(repo: Repo, candidate: Inventory, author: string, expected: Option<nat>, ownMessage: bool,
                              ip: Validation.Library, py: Parser.Python)
    requires RoundTrip.AllClean(candidate)
    requires var result := SaveResultOf(repo, candidate, author, expected, ownMessage, ip, py);
             result.Handed? && (result.result.Committed? || result.result.Unchanged?)
    ensures var after := AfterSave(repo, candidate, author, expected, ownMessage, ip, py);
            var state := StateOf(after, ip, py);
      && state.Seeded? && state.commit == after.Head() && Validation.Valid(state.findings)
      && SaveResultOf(after, state.inventory, author, after.Head(), ownMessage, ip, py) == Handed(Unchanged)
      && AfterSave(after, state.inventory, author, after.Head(), ownMessage, ip, py) == after
  {
    hide Renderer.Rendered, Parser.ParseOf, Validation.Findings, Validation.Valid, RoundTrip.AllClean,
      NormalForm.UniformRoles, RoundTrip.NormalForm;
    NormalFormIsValid(candidate, ip);
    RenderedIsStandalone(candidate);
    OneHostIsUniform(candidate, ip);
    RoundTrip.ParseOfRender(candidate, py);
    NormalForm.NormalFormRenders(candidate);
  }

  /** What is read back of a valid standalone inventory is valid. */
  lemma NormalFormIsValid(candidate: Inventory, ip: Validation.Library)
    requires Validation.Valid(Validation.Findings(candidate, ip))
    ensures candidate.mode.Standalone? ==> Validation.Valid(Validation.Findings(RoundTrip.NormalForm(candidate), ip))
  {
    hide Validation.Findings, Validation.Valid, Validation.IsHostname, Parser.KeyText, Renderer.Common;
    Validation.ValidExactly(candidate, ip);
    if candidate.mode.Standalone? {
      var normal := RoundTrip.NormalForm(candidate);
      NormalForm.OneHostCommon(candidate.hosts);
      var name, node := candidate.hosts[0].0, candidate.hosts[0].1;
      NormalHostIsAcceptable(name, node, ip);
      assert normal.hosts[0] == (name, RoundTrip.NormalNode(node, RoundTrip.Trimmed(node.isolcpus)));
      Validation.ValidExactly(normal, ip);
    }
  }

  lemma NormalHostIsAcceptable(name: Name, node: NodeConfig, ip: Validation.Library)
    requires Validation.AcceptableHost(name, node, ip)
    ensures Validation.AcceptableHost(name, RoundTrip.NormalNode(node, RoundTrip.Trimmed(node.isolcpus)), ip)
  {
    hide Validation.IsHostname, Parser.KeyText;
  }

  lemma RenderedIsStandalone(candidate: Inventory)
    ensures Renderer.Rendered(candidate).Some? <==> candidate.mode.Standalone?
  {}

  // ---- several operators ----

  type Operator = string

  /** What a read showed: the head, and the working file under it. */
  datatype Sight = Sight(head: Option<nat>, file: File)

  /** What each operator's last read showed. */
  datatype World = World(repo: Repo, seen: map<Operator, Sight>)

  datatype Step =
    | Read(op: Operator)
    | Save(op: Operator, candidate: Inventory, ownMessage: bool)
    | HandEdit(file: File)
    | Seed(candidate: Inventory)

  predicate CanStep(w: World, step: Step) {
    step.Save? ==> step.op in w.seen
  }

  /** What the state shows: no head for a file that says nothing. */
  function SightOf(repo: Repo): Sight {
    Sight(if repo.file.SaysNothing() then None else repo.Head(), repo.file)
  }

  ghost function Stepped(w: World, step: Step, ip: Validation.Library, py: Parser.Python): World
    requires CanStep(w, step)
  {
    match step
    case Read(op) => w.(seen := w.seen[op := SightOf(w.repo)])
    case Save(op, candidate, ownMessage) =>
      w.(repo := AfterSave(w.repo, candidate, op, w.seen[op].head, ownMessage, ip, py))
    case HandEdit(file) => w.(repo := w.repo.(file := file))
    case Seed(candidate) => w.(repo := AfterSeed(w.repo, Some(candidate)))
  }

  ghost predicate Schedule(w: World, steps: seq<Step>, ip: Validation.Library, py: Parser.Python)
    decreases |steps|
  {
    steps == [] || (CanStep(w, steps[0]) && Schedule(Stepped(w, steps[0], ip, py), steps[1..], ip, py))
  }

  ghost function Played(w: World, steps: seq<Step>, ip: Validation.Library, py: Parser.Python): World
    requires Schedule(w, steps, ip, py)
    decreases |steps|
  {
    if steps == [] then w else Played(Stepped(w, steps[0], ip, py), steps[1..], ip, py)
  }

  ghost predicate WrittenBy(content: Value, candidate: Inventory) {
    Renderer.Rendered(candidate) == Some(content)
  }

  /** Each commit sits on the one before; one made against a head its author read sits on that
      head; and but for a seed, what it holds is a valid inventory, rendered. */
  ghost predicate HistoryOk(commits: seq<Revision>, ip: Validation.Library) {
    forall i :: 0 <= i < |commits| ==>
      && commits[i].parent == (if i == 0 then None else Some(i - 1))
      && (commits[i].read.Some? ==> commits[i].parent == commits[i].read)
      && (commits[i].author != SEED_AUTHOR ==>
            exists c :: Validation.Valid(Validation.Findings(c, ip)) && WrittenBy(commits[i].content, c))
  }

  lemma CommitKeepsHistory(repo: Repo, candidate: Inventory, author: string, expected: Option<nat>,
                           ip: Validation.Library)
    requires Renderer.Rendered(candidate).Some?
    requires author != SEED_AUTHOR ==> Validation.Valid(Validation.Findings(candidate, ip))
    ensures var after := AfterCommit(repo, Renderer.Rendered(candidate).value, author, expected).commits;
            repo.commits <= after && (HistoryOk(repo.commits, ip) ==> HistoryOk(after, ip))
  {
    hide Renderer.Rendered, Validation.Findings, Validation.Valid;
    assert WrittenBy(Renderer.Rendered(candidate).value, candidate);
  }

  lemma StepKeepsHistory(w: World, step: Step, ip: Validation.Library, py: Parser.Python)
    requires CanStep(w, step)
    ensures HistoryOk(w.repo.commits, ip) ==> HistoryOk(Stepped(w, step, ip, py).repo.commits, ip)
    ensures w.repo.commits <= Stepped(w, step, ip, py).repo.commits
  {
    hide Renderer.Rendered, Validation.Findings, Validation.Valid, HistoryOk, AfterCommit, StateOf;
    match step {
      case Save(op, candidate, ownMessage) =>
        if SaveResultOf(w.repo, candidate, op, w.seen[op].head, ownMessage, ip, py).Handed? {
          CommitKeepsHistory(w.repo, candidate, op, w.seen[op].head, ip);
        }
      case Seed(candidate) =>
        if Renderer.Rendered(candidate).Some? {
          CommitKeepsHistory(w.repo, candidate, SEED_AUTHOR, None, ip);
        }
      case _ =>
    }
  }

  /** Over any schedule of reads, saves, hand edits and seeds, no commit is lost: every commit
      whose author had read a head was made on exactly that head, every commit but a seed holds
      a valid inventory, and the history only grows. What is in the working file and in no
      commit has no such protection: see `SaveReplacesWhatWasSeen`. */
  lemma {:induction false} NoLostCommit(w: World, steps: seq<Step>, ip: Validation.Library, py: Parser.Python)
    requires Schedule(w, steps, ip, py)
    ensures HistoryOk(w.repo.commits, ip) ==> HistoryOk(Played(w, steps, ip, py).repo.commits, ip)
    ensures w.repo.commits <= Played(w, steps, ip, py).repo.commits
    decreases |steps|
  {
    hide HistoryOk, Stepped;
    if steps != [] {
      StepKeepsHistory(w, steps[0], ip, py);
      NoLostCommit(Stepped(w, steps[0], ip, py), steps[1..], ip, py);
    }
  }

  // ---- the working file under the head ----

  /** A step that changes the file and adds no commit. */
  ghost predicate Rewrites(w: World, step: Step, ip: Validation.Library, py: Parser.Python)
    requires CanStep(w, step)
  {
    var after := Stepped(w, step, ip, py).repo;
    after.file != w.repo.file && after.commits == w.repo.commits
  }

  /** Only a hand edit does, and a save or a seed that git refuses. */
  lemma RewritesExactly(w: World, step: Step, ip: Validation.Library, py: Parser.Python)
    requires CanStep(w, step)
    ensures Rewrites(w, step, ip, py) <==>
      match step
      case Read(_) => false
      case HandEdit(file) => file != w.repo.file
      case Save(op, candidate, ownMessage) =>
        SaveResultOf(w.repo, candidate, op, w.seen[op].head, ownMessage, ip, py) == Handed(NothingToCommit)
      case Seed(candidate) =>
        && w.repo.file.SaysNothing() && Renderer.Rendered(candidate).Some?
        && CommitResultOf(w.repo, Renderer.Rendered(candidate).value, SEED_AUTHOR, None).NothingToCommit?
  {
    hide Renderer.Rendered, Validation.Findings, Validation.Valid, StateOf;
  }

  ghost predicate NothingRewrites(w: World, steps: seq<Step>, ip: Validation.Library, py: Parser.Python)
    requires Schedule(w, steps, ip, py)
    decreases |steps|
  {
    steps == [] ||
    (!Rewrites(w, steps[0], ip, py) && NothingRewrites(Stepped(w, steps[0], ip, py), steps[1..], ip, py))
  }

  ghost predicate NoReadBy(op: Operator, steps: seq<Step>) {
    forall i :: 0 <= i < |steps| ==> steps[i] != Read(op)
  }

  ghost predicate NoHandEdit(steps: seq<Step>) {
    forall i :: 0 <= i < |steps| ==> !steps[i].HandEdit?
  }

  /** The working file is what the head holds. */
  predicate Clean(repo: Repo) {
    repo.commits != [] && repo.file == TextOf(repo.commits[|repo.commits| - 1].content)
  }

  /** On a clean repository only a hand edit rewrites: git refuses no save and no seed there,
      and every other step leaves it clean. */
  lemma StepKeepsClean(w: World, step: Step, ip: Validation.Library, py: Parser.Python)
    requires CanStep(w, step) && Clean(w.repo) && !step.HandEdit?
    ensures Clean(Stepped(w, step, ip, py).repo) && !Rewrites(w, step, ip, py)
  {
    hide Renderer.Rendered, Validation.Findings, Validation.Valid, StateOf;
  }

  /** Over any schedule without a hand edit, a clean repository stays clean, and nothing is ever
      written that is not committed. */
  lemma {:induction false} ScheduleKeepsClean(w: World, steps: seq<Step>, ip: Validation.Library, py: Parser.Python)
    requires Schedule(w, steps, ip, py) && Clean(w.repo) && NoHandEdit(steps)
    ensures Clean(Played(w, steps, ip, py).repo) && NothingRewrites(w, steps, ip, py)
    decreases |steps|
  {
    hide Stepped, Clean, Rewrites;
    if steps != [] {
      StepKeepsClean(w, steps[0], ip, py);
      assert forall i :: 0 <= i < |steps[1..]| ==> steps[1..][i] == steps[i + 1];
      ScheduleKeepsClean(Stepped(w, steps[0], ip, py), steps[1..], ip, py);
    }
  }

  /** What an operator saw stays what it saw, and while no commit is made, a file that nothing
      rewrites stays as it is. */
  lemma {:induction false} Uncommitted(w: World, op: Operator, steps: seq<Step>, ip: Validation.Library,
                                       py: Parser.Python)
    requires Schedule(w, steps, ip, py) && NoReadBy(op, steps) && op in w.seen
    ensures var v := Played(w, steps, ip, py);
      && op in v.seen && v.seen[op] == w.seen[op]
      && (|v.repo.commits| == |w.repo.commits| ==>
            v.repo.commits == w.repo.commits && (NothingRewrites(w, steps, ip, py) ==> v.repo == w.repo))
    decreases |steps|
  {
    hide AfterSave, AfterSeed, SightOf, HistoryOk;
    if steps != [] {
      var next := Stepped(w, steps[0], ip, py);
      assert steps[0] != Read(op);
      assert forall i :: 0 <= i < |steps[1..]| ==> steps[1..][i] == steps[i + 1];
      StepKeepsHistory(w, steps[0], ip, py);
      NoLostCommit(next, steps[1..], ip, py);
      Uncommitted(next, op, steps[1..], ip, py);
    }
  }

  /** The operator sends the head it read, and the check lets its save through. */
  ghost predicate PassesCheck(w: World, op: Operator, candidate: Inventory, ownMessage: bool, ip: Validation.Library,
                              py: Parser.Python)
  {
    && op in w.seen && w.seen[op].head.Some?
    && var saved := SaveResultOf(w.repo, candidate, op, w.seen[op].head, ownMessage, ip, py);
       saved.Handed? && !saved.result.Stale?
  }

  /** An operator reads a head, anything happens, and its save passes the check. Then no commit
      was made in between. Where nothing rewrote the file, and so always where the file was the
      head's and nobody edited it by hand, the repository is the one the operator saw, and the
      save replaces nothing else. And for a file that was the head's when it was read, the save
      replaces what its author saw exactly if the file is still the head's: the test that the
      commit does not make. */
  lemma SaveReplacesWhatWasSeen(w: World, op: Operator, steps: seq<Step>, candidate: Inventory, ownMessage: bool,
                                ip: Validation.Library, py: Parser.Python)
    requires op in w.seen && w.seen[op] == SightOf(w.repo)
    requires Schedule(w, steps, ip, py) && NoReadBy(op, steps)
    requires PassesCheck(Played(w, steps, ip, py), op, candidate, ownMessage, ip, py)
    ensures var v := Played(w, steps, ip, py);
      && v.seen[op] == w.seen[op] && v.repo.commits == w.repo.commits
      && (NothingRewrites(w, steps, ip, py) || (Clean(w.repo) && NoHandEdit(steps)) ==> v.repo == w.repo)
      && (Clean(w.repo) ==> (v.repo.file == v.seen[op].file <==> Clean(v.repo)))
      && (!Clean(w.repo) && Clean(v.repo) ==> v.repo.file != v.seen[op].file)
  {
    hide Renderer.Rendered, Validation.Findings, Validation.Valid, StateOf, Stepped, Schedule, Played, NothingRewrites,
      NoHandEdit;
    Uncommitted(w, op, steps, ip, py);
    if Clean(w.repo) && NoHandEdit(steps) {
      ScheduleKeepsClean(w, steps, ip, py);
    }
  }

  /** A hand edit after the read is overwritten by a save that passes the check, and is in no
      commit; a save that git refuses, because the head already says the same, overwrites it too. */
  lemma HandEditIsOverwritten(w: World, edited: File, b: Inventory, ip: Validation.Library, py: Parser.Python)
    requires !w.repo.file.SaysNothing() && w.repo.commits != []
    requires Validation.Valid(Validation.Findings(b, ip)) && b.mode.Standalone?
    requires edited != TextOf(Renderer.Rendered(b).value)
    ensures var document, head := Renderer.Rendered(b).value, |w.repo.commits| - 1;
            var steps := [Read("bob"), HandEdit(edited), Save("bob", b, true)];
      && Schedule(w, steps, ip, py)
      && Played(w, steps, ip, py).repo == Repo(TextOf(document), w.repo.commits + (
           if w.repo.commits[head].content == document then []
           else [Revision(Some(head), Some(head), "bob", document)]))
  {
    hide Validation.Findings, Validation.Valid, StateOf, Renderer.Rendered;
    RenderedIsStandalone(b);
    var read, edit, save := Read("bob"), HandEdit(edited), Save("bob", b, true);
    var w1 := Stepped(w, read, ip, py);
    var w2 := Stepped(w1, edit, ip, py);
    assert w2.seen["bob"].head == w2.repo.Head();
    var w3 := Stepped(w2, save, ip, py);
    assert [read, edit, save][1..] == [edit, save] && [edit, save][1..] == [save];
    assert Schedule(w3, [], ip, py);
    assert Schedule(w2, [save], ip, py) && Played(w2, [save], ip, py) == w3;
    assert Schedule(w1, [edit, save], ip, py) && Played(w1, [edit, save], ip, py) == w3;
  }

  /** The check is skipped for an author who read no head: such a commit is made on what its
      author saw exactly when there still is no commit. */
  lemma UnseenExactly(repo: Repo, content: Value, author: string, expected: Option<nat>)
    requires CommitResultOf(repo, content, author, expected).Committed?
    ensures CommitResultOf(repo, content, author, expected).commit.parent == expected
       <==> expected.Some? || repo.commits == []
  {}

  /** Two operators who both read an empty repository: the second silently replaces what the
      first saved and never saw it. */
  lemma FirstCommitIsUnprotected(a: Inventory, b: Inventory, ip: Validation.Library, py: Parser.Python)
    requires Validation.Valid(Validation.Findings(a, ip)) && Validation.Valid(Validation.Findings(b, ip))
    requires a.mode.Standalone? && b.mode.Standalone? && Renderer.Rendered(a) != Renderer.Rendered(b)
    ensures var w := World(Repo(Missing, []), map[]);
            var steps := [Read("alice"), Read("bob"), Save("alice", a, true), Save("bob", b, true)];
      && Schedule(w, steps, ip, py)
      && Played(w, steps, ip, py).repo.commits ==
           [Revision(None, None, "alice", Renderer.Rendered(a).value),
            Revision(Some(0), None, "bob", Renderer.Rendered(b).value)]
  {
    hide Validation.Findings, Validation.Valid, StateOf, Renderer.Rendered;
    RenderedIsStandalone(a);
    RenderedIsStandalone(b);
    var w := World(Repo(Missing, []), map[]);
    var w1 := Stepped(w, Read("alice"), ip, py);
    var w2 := Stepped(w1, Read("bob"), ip, py);
    assert w2.seen["alice"].head == None && w2.seen["bob"].head == None;
    var w3 := Stepped(w2, Save("alice", a, true), ip, py);
    var first := Renderer.Rendered(a).value;
    assert w3.repo == Repo(TextOf(first), [Revision(None, None, "alice", first)]);
    var w4 := Stepped(w3, Save("bob", b, true), ip, py);
    assert w4.repo.commits == w3.repo.commits + [Revision(Some(0), None, "bob", Renderer.Rendered(b).value)];
    FourSteps(w, Read("alice"), Read("bob"), Save("alice", a, true), Save("bob", b, true), ip, py);
  }

  lemma FourSteps(w: World, a: Step, b: Step, c: Step, d: Step, ip: Validation.Library, py: Parser.Python)
    requires CanStep(w, a)
    requires CanStep(Stepped(w, a, ip, py), b)
    requires CanStep(Stepped(Stepped(w, a, ip, py), b, ip, py), c)
    requires CanStep(Stepped(Stepped(Stepped(w, a, ip, py), b, ip, py), c, ip, py), d)
    ensures Schedule(w, [a, b, c, d], ip, py)
    ensures Played(w, [a, b, c, d], ip, py) ==
              Stepped(Stepped(Stepped(Stepped(w, a, ip, py), b, ip, py), c, ip, py), d, ip, py)
  {
    hide CanStep, Stepped;
    var w1 := Stepped(w, a, ip, py);
    var w2 := Stepped(w1, b, ip, py);
    var w3 := Stepped(w2, c, ip, py);
    var w4 := Stepped(w3, d, ip, py);
    assert [d][1..] == [] && [c, d][1..] == [d] && [b, c, d][1..] == [c, d] && [a, b, c, d][1..] == [b, c, d];
    assert Schedule(w4, [], ip, py);
    assert Schedule(w3, [d], ip, py) && Played(w3, [d], ip, py) == w4;
    assert Schedule(w2, [c, d], ip, py) && Played(w2, [c, d], ip, py) == w4;
    assert Schedule(w1, [b, c, d], ip, py) && Played(w1, [b, c, d], ip, py) == w4;
  }
}
