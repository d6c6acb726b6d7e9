/**
 * `PrepareBranchesUseCase.invoke`: on an issue event, plan the hotfix
 * branch from the latest tag (bumping its last dot component), have the
 * branch created and linked, and collect the steps and reminders that tell
 * the user what happened, in a result log.
 *
 * The git and GitHub calls are not part of this model: what each returned
 * (or that it threw) is an input, `Replies`.
 */
module PrepareBranches {
  import opened Wrappers
  import opened Text
  import opened Results
  import opened ExecutionState
  import BranchRepository

  const TaskId: string := "PrepareBranchesUseCase"
  const FailureStep: string := "Tried to prepare the hotfix branch to the issue, but there was a problem."
  const CoffeeReminder: string := "Make yourself a coffee \U{2615}."
  const NoTagStep: string := "Tried to create a hotfix but no tag was found."

  // The hotfix version: `version.split('.').map(Number)`, last part + 1,
  // `join('.')`.

  /** A JavaScript number as `Number` yields it for one dot component. */
  datatype JsNumber = Num(value: nat) | NaN

  /** `Number(s)` on one component: a run of decimal digits (the empty run
      included, which is 0) gives its value; anything else is `NaN`. */
  function ToNumber(s: string): JsNumber {
    if AllDigits(s) then Num(DigitsValue(s)) else NaN
  }

  /** `n + 1`; `NaN` stays `NaN`. */
  function Plus1(n: JsNumber): JsNumber {
    match n
    case Num(v) => Num(v + 1)
    case NaN => NaN
  }

  /** How `join` prints a number. */
  function NumberText(n: JsNumber): (r: string)
    ensures '.' !in r
  {
    match n
    case Num(v) => NatToDecimal(v)
    case NaN => "NaN"
  }

  function Numbers(pieces: seq<string>): seq<JsNumber> {
    seq(|pieces|, k requires 0 <= k < |pieces| => ToNumber(pieces[k]))
  }

  function Texts(ns: seq<JsNumber>): seq<string> {
    seq(|ns|, k requires 0 <= k < |ns| => NumberText(ns[k]))
  }

  /** The version after `version`. */
  function NextVersion(version: string): string {
    JoinWith(Texts(Bumped(version)), '.')
  }

  /** `incrementHotfixVersion`: the parts live in an array whose last
      element is bumped in place before the join. */
  method IncrementHotfixVersion(version: string) returns (r: string)
    ensures r == NextVersion(version)
  {
    var parts := ParseParts(SplitOn(version, '.'));
    var last := parts.Length - 1;
    parts[last] := Plus1(parts[last]);
    BumpedIsLastPlus1(version, parts[..]);
    r := JoinParts(parts);
  }

  /** `version.split('.').map(Number)`, into a fresh array. */
  method ParseParts(pieces: seq<string>) returns (parts: array<JsNumber>)
    requires |pieces| >= 1
    ensures fresh(parts) && parts.Length == |pieces| && parts[..] == Numbers(pieces)
  {
    parts := new JsNumber[|pieces|];
    for i := 0 to |pieces|
      invariant forall k :: 0 <= k < i ==> parts[k] == ToNumber(pieces[k])
    {
      parts[i] := ToNumber(pieces[i]);
    }
  }

  /** `parts.join('.')`, one part after the other. */
  method JoinParts(parts: array<JsNumber>) returns (r: string)
    requires parts.Length >= 1
    ensures r == JoinWith(Texts(parts[..]), '.')
  {
    r := NumberText(parts[0]);
    for i := 1 to parts.Length
      invariant r == JoinWith(Texts(parts[..i]), '.')
    {
      JoinWithSnoc(Texts(parts[..i]), NumberText(parts[i]), '.');
      assert Texts(parts[..i + 1]) == Texts(parts[..i]) + [NumberText(parts[i])];
      r := r + "." + NumberText(parts[i]);
    }
    assert parts[..parts.Length] == parts[..];
  }

  /** The numbers with the last one bumped are `Bumped(version)`. */
  lemma BumpedIsLastPlus1(version: string, ns: seq<JsNumber>)
    requires |ns| == |SplitOn(version, '.')|
    requires forall k :: 0 <= k < |ns| - 1 ==> ns[k] == ToNumber(SplitOn(version, '.')[k])
    requires ns[|ns| - 1] == Plus1(ToNumber(SplitOn(version, '.')[|ns| - 1]))
    ensures ns == Bumped(version)
  {
  }

  /** The numbers of `version` with the last one bumped. */
  function Bumped(version: string): (ns: seq<JsNumber>)
    ensures |ns| == |SplitOn(version, '.')|
  {
    var ns := Numbers(SplitOn(version, '.'));
    ns[..|ns| - 1] + [Plus1(ns[|ns| - 1])]
  }

  /** The next version splits back into the printed bumped numbers. */
  lemma NextVersionSplits(version: string)
    ensures SplitOn(NextVersion(version), '.') == Texts(Bumped(version))
  {
    var texts := Texts(Bumped(version));
    assert NextVersion(version) == JoinWith(texts, '.');
    SplitJoin(texts, '.');
  }

  /** `out` is `pieces` bumped and reprinted, component by component: as
      many components; every one but the last is reprinted (digits keep
      their value, so canonical ones are unchanged; anything else becomes
      `NaN`); the last is one more than before, or `NaN`. */
  predicate BumpedParts(pieces: seq<string>, out: seq<string>) {
    && |pieces| >= 1
    && |out| == |pieces|
    && (forall k :: 0 <= k < |pieces| - 1 && AllDigits(pieces[k]) ==> out[k] == NatToDecimal(DigitsValue(pieces[k])))
    && (forall k :: 0 <= k < |pieces| - 1 && Canonical(pieces[k]) ==> out[k] == pieces[k])
    && (forall k :: 0 <= k < |pieces| - 1 && !AllDigits(pieces[k]) ==> out[k] == "NaN")
    && (AllDigits(pieces[|pieces| - 1]) ==> out[|out| - 1] == NatToDecimal(DigitsValue(pieces[|pieces| - 1]) + 1))
    && (!AllDigits(pieces[|pieces| - 1]) ==> out[|out| - 1] == "NaN")
  }

  /** The components of the next version are those of `version`, bumped
      and reprinted. */
  lemma NextVersionParts(version: string)
    ensures BumpedParts(SplitOn(version, '.'), SplitOn(NextVersion(version), '.'))
  {
    NextVersionSplits(version);
    BumpedTexts(SplitOn(version, '.'), SplitOn(NextVersion(version), '.'));
  }

  /** The printed components of `pieces` with the last one bumped. */
  lemma BumpedTexts(pieces: seq<string>, out: seq<string>)
    requires |pieces| >= 1
    requires out == Texts(Numbers(pieces)[..|pieces| - 1] + [Plus1(Numbers(pieces)[|pieces| - 1])])
    ensures BumpedParts(pieces, out)
  {
    forall k | 0 <= k < |pieces| - 1
      ensures out[k] == NumberText(ToNumber(pieces[k]))
      ensures Canonical(pieces[k]) ==> out[k] == pieces[k]
    {
      if Canonical(pieces[k]) {
        DecimalOfValue(pieces[k]);
      }
    }
  }

  /** With no tag at all the latest tag is empty, and the next version is 1. */
  lemma EmptyTagVersion()
    ensures NextVersion("") == "1"
  {
    assert SplitOn("", '.') == [""];
    assert Numbers([""]) == [Num(0)];
    assert Bumped("") == [Num(1)];
    assert Texts([Num(1)]) == ["1"];
  }

  // The messages.

  function CoffeeEntry(): Result {
    Entry(TaskId, true, true, [], [CoffeeReminder])
  }

  /** The entry of the `catch` block. */
  function PrepareFailure(): Result {
    Failure(TaskId, FailureStep)
  }

  function NoTagEntry(): Result {
    Entry(TaskId, false, true, [NoTagStep], [])
  }

  function TagBranch(tag: string): string {
    "tags/" + tag
  }

  function CreatedStep(ex: Execution, tag: string, branch: string): string {
    "The tag [**" + TagBranch(tag) + "**](" + ex.TreeUrl(TagBranch(tag))
    + ") was used to create the branch [**" + branch + "**](" + ex.TreeUrl(branch) + ")"
  }

  function ExistsStep(ex: Execution, tag: string, branch: string): string {
    "The branch [**" + branch + "**](" + ex.TreeUrl(branch)
    + ") already exists and won't be created from the tag [**" + TagBranch(tag) + "**](" + ex.TreeUrl(TagBranch(tag)) + ")."
  }

  /** The base branch is a feature or bugfix branch, which the new branch
      renames rather than branches from. */
  predicate Rename(ex: Execution, base: string) {
    Contains(base, ex.featureTree + "/") || Contains(base, ex.bugfixTree + "/")
  }

  /** The commit-prefix hint added to a reminder, present only for a
      non-empty prefix. */
  function Hint(prefix: string): string {
    if |prefix| > 0 then "\n> Consider commiting with the prefix `" + prefix + "`." else ""
  }

  function CompareUrl(ex: Execution, target: string, source: string): string {
    "https://github.com/" + ex.owner + "/" + ex.repo + "/compare/" + target + "..." + source + "?expand=1"
  }

  function BranchStep(ex: Execution, p: BranchPayload): string {
    if Rename(ex, p.baseBranchName) then
      "The branch **" + p.baseBranchName + "** was renamed to [**" + p.newBranchName + "**](" + p.newBranchUrl + ")."
    else
      "The branch [**" + p.baseBranchName + "**](" + p.baseBranchUrl
      + ") was used to create the branch [**" + p.newBranchName + "**](" + p.newBranchUrl + ")."
  }

  function PullRequestReminder(ex: Execution, p: BranchPayload): string {
    if Rename(ex, p.baseBranchName) then
      "Open a Pull Request from [`" + p.newBranchName + "`](" + p.newBranchUrl + ") to [`"
      + ex.developmentBranch + "`](" + ex.TreeUrl(ex.developmentBranch) + "). [New PR]("
      + CompareUrl(ex, ex.developmentBranch, p.newBranchName) + ")"
    else
      "Open a Pull Request from [`" + p.newBranchName + "`](" + p.newBranchUrl + ") to [`"
      + p.baseBranchName + "`](" + p.baseBranchUrl + "). [New PR]("
      + CompareUrl(ex, p.baseBranchName, p.newBranchName) + ")"
  }

  function CommitReminder(p: BranchPayload, prefix: string): string {
    "Commit the necessary changes to [`" + p.newBranchName + "`](" + p.newBranchUrl + ")." + Hint(prefix)
  }

  function MergeReminder(ex: Execution, p: BranchPayload, prefix: string): string {
    "Open a Pull Request from [`" + p.baseBranchName + "`](" + p.baseBranchUrl + ") to [`"
    + ex.mainBranch + "`](" + ex.TreeUrl(ex.mainBranch) + ") after merging into [`"
    + p.baseBranchName + "`](" + p.baseBranchUrl + "). [New PR]("
    + CompareUrl(ex, ex.mainBranch, p.baseBranchName) + ")" + Hint(prefix)
  }

  function TagReminder(ex: Execution, version: string): string {
    "Create the tag `" + version + "` after merging into [`" + ex.mainBranch + "`](" + ex.TreeUrl(ex.mainBranch) + ")."
  }

  // The use case as a function of the replies.

  /** What the calls returned. `None` marks a call that threw, except for
      `latestTag`, which is `None` when the tag came back undefined. The
      fetch and the tag's commit lookup catch their own errors, so they
      never throw and have no reply here. */
  datatype Replies = Replies(
    branches: Option<seq<string>>,
    latestTag: Option<string>,
    linkResult: Option<seq<Result>>,
    managed: Option<seq<Result>>,
    commitPrefix: Option<string>)

  /** The hotfix version and branch written back to the execution. */
  datatype HotfixPlan = HotfixPlan(version: string, branch: string)

  /** The returned log and the hotfix fields assigned on the way. */
  datatype Prepared = Prepared(log: seq<Result>, plan: Option<HotfixPlan>)

  function HotfixBranchName(ex: Execution, version: string): string {
    ex.hotfixTree + "/" + version
  }

  /** The entries of the hotfix creation; `None` when reading the link
      result throws (no result, or an empty one). */
  function HotfixEntries(ex: Execution, tag: string, branch: string, branches: seq<string>,
                         link: Option<seq<Result>>): Option<seq<Result>> {
    if branch !in branches then
      if link.None? || |link.value| == 0 then None
      else if link.value[|link.value| - 1].success then Some([Entry(TaskId, true, true, [CreatedStep(ex, tag, branch)], [])])
      else Some([])
    else Some([Entry(TaskId, true, true, [ExistsStep(ex, tag, branch)], [])])
  }

  /** The entries about the branch `manageBranches` created. */
  function BranchEntries(ex: Execution, p: BranchPayload, prefix: string, version: string): seq<Result> {
    [Entry(TaskId, true, true, [BranchStep(ex, p)], [CommitReminder(p, prefix), PullRequestReminder(ex, p)])]
    + if ex.hotfixActive then [Entry(TaskId, true, true, [], [MergeReminder(ex, p, prefix), TagReminder(ex, version)])] else []
  }

  /** Everything appended from the `manageBranches` call on: its results,
      then the branch entries when its last result succeeded and ran, or the
      failure entry where something throws on the way. */
  function AfterManage(ex: Execution, managed: Option<seq<Result>>, prefix: Option<string>, version: string): seq<Result> {
    match managed
    case None => [PrepareFailure()]
    case Some(ms) =>
      if |ms| == 0 then [PrepareFailure()]
      else if !(ms[|ms| - 1].success && ms[|ms| - 1].executed) then ms
      else if ms[|ms| - 1].payload.None? || prefix.None? then ms + [PrepareFailure()]
      else ms + BranchEntries(ex, ms[|ms| - 1].payload.value, prefix.value, version)
  }

  /** The use case's outcome. */
  function Prepare(ex: Execution, r: Replies): Prepared {
    if |ex.issueTitle| == 0 then Prepared([], None)
    else if r.branches.None? then Prepared([CoffeeEntry(), PrepareFailure()], None)
    else if ex.hotfixActive && r.latestTag.Some? then
      var tag := r.latestTag.value;
      var version := NextVersion(tag);
      var plan := HotfixPlan(version, HotfixBranchName(ex, version));
      match HotfixEntries(ex, tag, plan.branch, r.branches.value, r.linkResult)
      case None => Prepared([CoffeeEntry(), PrepareFailure()], Some(plan))
      case Some(hot) => Prepared([CoffeeEntry()] + hot + AfterManage(ex, r.managed, r.commitPrefix, version), Some(plan))
    else if ex.hotfixActive then Prepared([CoffeeEntry(), NoTagEntry()], None)
    else Prepared([CoffeeEntry()] + AfterManage(ex, r.managed, r.commitPrefix, ""), None)
  }

  // What the use case promises.

  /** An empty issue title ends the run before any call: nothing is logged
      and no hotfix field is assigned, whatever the calls would return. */
  lemma EmptyTitleStopsEarly(ex: Execution, r: Replies)
    requires |ex.issueTitle| == 0
    ensures Prepare(ex, r) == Prepared([], None)
  {
  }

  /** The run gets as far as the hotfix decision: a title, and the branch
      listing did not throw. */
  predicate ReachesHotfix(ex: Execution, r: Replies) {
    |ex.issueTitle| > 0 && r.branches.Some?
  }

  /** An active hotfix with a tag plans `hotfixTree/<next version>`, and
      the same branch is recorded for the stored configuration. */
  lemma HotfixBranchPlanned(ex: Execution, r: Replies)
    requires ReachesHotfix(ex, r) && ex.hotfixActive && r.latestTag.Some?
    ensures var version := NextVersion(r.latestTag.value);
      Prepare(ex, r).plan == Some(HotfixPlan(version, ex.hotfixTree + "/" + version))
  {
  }

  /** A hotfix branch that is listed already is not created: exactly one
      "already exists" success follows the coffee reminder. */
  lemma ListedHotfixNotCreated(ex: Execution, r: Replies)
    requires ReachesHotfix(ex, r) && ex.hotfixActive && r.latestTag.Some?
    requires HotfixBranchName(ex, NextVersion(r.latestTag.value)) in r.branches.value
    ensures var tag := r.latestTag.value;
      Prepare(ex, r).log == [CoffeeEntry(), Entry(TaskId, true, true, [ExistsStep(ex, tag, HotfixBranchName(ex, NextVersion(tag)))], [])]
                            + AfterManage(ex, r.managed, r.commitPrefix, NextVersion(tag))
  {
    var tag := r.latestTag.value;
    var branch := HotfixBranchName(ex, NextVersion(tag));
    var hot := [Entry(TaskId, true, true, [ExistsStep(ex, tag, branch)], [])];
    assert HotfixEntries(ex, tag, branch, r.branches.value, r.linkResult) == Some(hot);
    assert [CoffeeEntry()] + hot == [CoffeeEntry(), hot[0]];
  }

  /** For a listed hotfix branch the link reply plays no part. */
  lemma ListedHotfixIgnoresLink(ex: Execution, r: Replies, otherLink: Option<seq<Result>>)
    requires ReachesHotfix(ex, r) && ex.hotfixActive && r.latestTag.Some?
    requires HotfixBranchName(ex, NextVersion(r.latestTag.value)) in r.branches.value
    ensures Prepare(ex, r.(linkResult := otherLink)) == Prepare(ex, r)
  {
    var tag := r.latestTag.value;
    var branch := HotfixBranchName(ex, NextVersion(tag));
    var hot := [Entry(TaskId, true, true, [ExistsStep(ex, tag, branch)], [])];
    assert HotfixEntries(ex, tag, branch, r.branches.value, otherLink) == Some(hot);
    assert HotfixEntries(ex, tag, branch, r.branches.value, r.linkResult) == Some(hot);
  }

  /** When the link reports failure, nothing is logged for the hotfix
      creation and the run goes on. */
  lemma LinkFailureLogsNothing(ex: Execution, r: Replies)
    requires ReachesHotfix(ex, r) && ex.hotfixActive && r.latestTag.Some?
    requires HotfixBranchName(ex, NextVersion(r.latestTag.value)) !in r.branches.value
    requires r.linkResult.Some? && |r.linkResult.value| > 0
    requires !r.linkResult.value[|r.linkResult.value| - 1].success
    ensures Prepare(ex, r).log == [CoffeeEntry()] + AfterManage(ex, r.managed, r.commitPrefix, NextVersion(r.latestTag.value))
  {
    var tag := r.latestTag.value;
    var branch := HotfixBranchName(ex, NextVersion(tag));
    assert HotfixEntries(ex, tag, branch, r.branches.value, r.linkResult) == Some([]);
    assert [CoffeeEntry()] + [] == [CoffeeEntry()];
  }

  /** An active hotfix without a tag logs one failure after the coffee
      reminder and stops: `manageBranches`, the link and the commit prefix
      play no part, and no hotfix field is assigned. */
  lemma NoTagStops(ex: Execution, r: Replies, managed: Option<seq<Result>>, link: Option<seq<Result>>, prefix: Option<string>)
    requires ReachesHotfix(ex, r) && ex.hotfixActive && r.latestTag.None?
    ensures Prepare(ex, r) == Prepared([CoffeeEntry(), NoTagEntry()], None)
    ensures Prepare(ex, r.(managed := managed, linkResult := link, commitPrefix := prefix)) == Prepare(ex, r)
    ensures !NoTagEntry().success && NoTagEntry().executed
  {
  }

  /** The entries logged before `manageBranches` is called. */
  function Collected(ex: Execution, r: Replies): seq<Result>
    requires ReachesHotfix(ex, r)
  {
    if ex.hotfixActive && r.latestTag.Some? then
      var tag := r.latestTag.value;
      [CoffeeEntry()] + HotfixEntries(ex, tag, HotfixBranchName(ex, NextVersion(tag)), r.branches.value, r.linkResult).GetOr([])
    else [CoffeeEntry()]
  }

  /** The run reaches `manageBranches`. */
  predicate ReachesManage(ex: Execution, r: Replies) {
    && ReachesHotfix(ex, r)
    && (ex.hotfixActive ==>
          && r.latestTag.Some?
          && var tag := r.latestTag.value;
             HotfixEntries(ex, tag, HotfixBranchName(ex, NextVersion(tag)), r.branches.value, r.linkResult).Some?)
  }

  /** A throw from `manageBranches` on appends one failure entry after the
      entries already collected, and nothing else. */
  lemma ThrowAppendsOneFailure(ex: Execution, r: Replies)
    requires ReachesManage(ex, r)
    ensures r.managed.None? ==> Prepare(ex, r).log == Collected(ex, r) + [PrepareFailure()]
    ensures r.managed == Some([]) ==> Prepare(ex, r).log == Collected(ex, r) + [PrepareFailure()]
    ensures r.managed.Some? && |r.managed.value| > 0 ==>
              var last := r.managed.value[|r.managed.value| - 1];
              last.success && last.executed && (last.payload.None? || r.commitPrefix.None?) ==>
                Prepare(ex, r).log == Collected(ex, r) + r.managed.value + [PrepareFailure()]
  {
  }

  /** A throw before `manageBranches` (the listing, or reading the link
      result) leaves the coffee reminder and one failure. */
  lemma EarlyThrowAfterCoffee(ex: Execution, r: Replies)
    requires |ex.issueTitle| > 0
    requires || r.branches.None?
             || (ReachesHotfix(ex, r) && ex.hotfixActive && r.latestTag.Some? && !ReachesManage(ex, r))
    ensures Prepare(ex, r).log == [CoffeeEntry(), PrepareFailure()]
  {
  }

  lemma {:induction false} ContainsFront(s: string, a: string, b: string)
    requires Contains(s, a + b)
    ensures Contains(s, a)
  {
    var i := IndexOf(s, a + b);
    OccursConcat(s, a, b, i);
  }

  lemma FoundContains(names: seq<string>, prefix: string)
    requires BranchRepository.FindContaining(names, prefix).Some?
    ensures Contains(BranchRepository.FindContaining(names, prefix).value, prefix)
  {
  }

  /** A branch found by the switch search contains `<type>/`. */
  lemma SwitchedHasTree(names: seq<string>, issueNumber: int)
    requires BranchRepository.SwitchSearch(names, issueNumber).Some?
    ensures var base := BranchRepository.SwitchSearch(names, issueNumber).value;
      Contains(base, "feature/") || Contains(base, "bugfix/")
  {
    BranchRepository.SwitchSearchOrder(names, issueNumber);
    if BranchRepository.FindContaining(names, BranchRepository.SwitchPrefix("feature", issueNumber)).Some? {
      FoundHasTree(names, "feature", issueNumber);
      assert "feature" + "/" == "feature/";
    } else {
      FoundHasTree(names, "bugfix", issueNumber);
      assert "bugfix" + "/" == "bugfix/";
    }
  }

  /** A branch found for a type's switch prefix contains `<type>/`. */
  lemma FoundHasTree(names: seq<string>, branchType: string, issueNumber: int)
    requires BranchRepository.FindContaining(names, BranchRepository.SwitchPrefix(branchType, issueNumber)).Some?
    ensures Contains(BranchRepository.FindContaining(names, BranchRepository.SwitchPrefix(branchType, issueNumber)).value,
                     branchType + "/")
  {
    var prefix := BranchRepository.SwitchPrefix(branchType, issueNumber);
    FoundContains(names, prefix);
    assert prefix == (branchType + "/") + BranchRepository.IssuePrefix(issueNumber);
    ContainsFront(BranchRepository.FindContaining(names, prefix).value, branchType + "/", BranchRepository.IssuePrefix(issueNumber));
  }

  /** A base found by the switch search is renamed, when the feature and
      bugfix trees are the names the search uses. */
  lemma SwitchedBaseRenames(ex: Execution, names: seq<string>, issueNumber: int)
    requires ex.featureTree == "feature" && ex.bugfixTree == "bugfix"
    requires BranchRepository.SwitchSearch(names, issueNumber).Some?
    ensures Rename(ex, BranchRepository.SwitchSearch(names, issueNumber).value)
  {
    SwitchedHasTree(names, issueNumber);
    assert ex.featureTree + "/" == "feature/" && ex.bugfixTree + "/" == "bugfix/";
  }

  lemma SlashOfContained(s: string, t: string)
    requires Contains(s, t + "/")
    ensures '/' in s
  {
    var i := IndexOf(s, t + "/");
    assert s[i + |t|] == (t + "/")[|t|];
  }

  /** A base without a `/`, such as a plain development branch, is never
      renamed: its step says the new branch was created from it. */
  lemma PlainBaseNotRenamed(ex: Execution, p: BranchPayload)
    requires '/' !in p.baseBranchName
    ensures !Rename(ex, p.baseBranchName)
    ensures BranchStep(ex, p) == "The branch [**" + p.baseBranchName + "**](" + p.baseBranchUrl
                                 + ") was used to create the branch [**" + p.newBranchName + "**](" + p.newBranchUrl + ")."
  {
    if Rename(ex, p.baseBranchName) {
      if Contains(p.baseBranchName, ex.featureTree + "/") {
        SlashOfContained(p.baseBranchName, ex.featureTree);
      } else {
        SlashOfContained(p.baseBranchName, ex.bugfixTree);
      }
    }
  }

  /** The commit-prefix hint is added to both reminders exactly when the
      prefix is not empty, and then they end with it. */
  lemma HintOnlyForPrefix(ex: Execution, p: BranchPayload, prefix: string)
    ensures CommitReminder(p, prefix) == CommitReminder(p, "") <==> |prefix| == 0
    ensures MergeReminder(ex, p, prefix) == MergeReminder(ex, p, "") <==> |prefix| == 0
    ensures |prefix| > 0 ==> EndsWith(CommitReminder(p, prefix), "`" + prefix + "`.")
    ensures |prefix| > 0 ==> EndsWith(MergeReminder(ex, p, prefix), "`" + prefix + "`.")
  {
    if |prefix| > 0 {
      var hint := Hint(prefix);
      assert hint == "\n> Consider commiting with the prefix " + ("`" + prefix + "`.");
      EndsWithAppended("\n> Consider commiting with the prefix ", "`" + prefix + "`.");
      assert |CommitReminder(p, prefix)| > |CommitReminder(p, "")|;
      assert |MergeReminder(ex, p, prefix)| > |MergeReminder(ex, p, "")|;
      var c := "Commit the necessary changes to [`" + p.newBranchName + "`](" + p.newBranchUrl + ").";
      assert CommitReminder(p, prefix) == c + "\n> Consider commiting with the prefix " + ("`" + prefix + "`.");
      EndsWithAppended(c + "\n> Consider commiting with the prefix ", "`" + prefix + "`.");
      var m := MergeReminder(ex, p, "");
      assert MergeReminder(ex, p, prefix) == m + "\n> Consider commiting with the prefix " + ("`" + prefix + "`.");
      EndsWithAppended(m + "\n> Consider commiting with the prefix ", "`" + prefix + "`.");
    }
  }

  // The use case as the source runs it.

  /** The hotfix creation step: create and link the branch unless it is
      listed already. `threw` reports a throw while reading the link result. */
  method CreateHotfix(ex: Execution, tag: string, branch: string, branches: seq<string>, link: Option<seq<Result>>)
    returns (entries: seq<Result>, threw: bool)
    ensures threw <==> HotfixEntries(ex, tag, branch, branches, link).None?
    ensures threw ==> entries == []
    ensures !threw ==> entries == HotfixEntries(ex, tag, branch, branches, link).value
  {
    entries := [];
    threw := false;
    if branch !in branches {
      if link.None? || |link.value| == 0 {
        threw := true;
        return;
      }
      var linkResult := link.value;
      if linkResult[|linkResult| - 1].success {
        entries := entries + [Entry(TaskId, true, true, [CreatedStep(ex, tag, branch)], [])];
      }
    } else {
      entries := entries + [Entry(TaskId, true, true, [ExistsStep(ex, tag, branch)], [])];
    }
  }

  /** The step and the pull request reminder: a rename when the base is a
      feature or bugfix branch. */
  method RenameMessages(ex: Execution, payload: BranchPayload) returns (step: string, reminder: string)
    ensures step == BranchStep(ex, payload) && reminder == PullRequestReminder(ex, payload)
  {
    var rename := IndexOf(payload.baseBranchName, ex.featureTree + "/") > -1
                  || IndexOf(payload.baseBranchName, ex.bugfixTree + "/") > -1;
    if rename {
      step := "The branch **" + payload.baseBranchName + "** was renamed to [**" + payload.newBranchName + "**](" + payload.newBranchUrl + ").";
      reminder := "Open a Pull Request from [`" + payload.newBranchName + "`](" + payload.newBranchUrl + ") to [`"
                  + ex.developmentBranch + "`](" + ex.TreeUrl(ex.developmentBranch) + "). [New PR]("
                  + CompareUrl(ex, ex.developmentBranch, payload.newBranchName) + ")";
    } else {
      step := "The branch [**" + payload.baseBranchName + "**](" + payload.baseBranchUrl
              + ") was used to create the branch [**" + payload.newBranchName + "**](" + payload.newBranchUrl + ").";
      reminder := "Open a Pull Request from [`" + payload.newBranchName + "`](" + payload.newBranchUrl + ") to [`"
                  + payload.baseBranchName + "`](" + payload.baseBranchUrl + "). [New PR]("
                  + CompareUrl(ex, payload.baseBranchName, payload.newBranchName) + ")";
    }
  }

  /** The entries about the created branch, reminders built up with `+=`. */
  method Announce(ex: Execution, payload: BranchPayload, commitPrefix: string, version: string)
    returns (entries: seq<Result>)
    ensures entries == BranchEntries(ex, payload, commitPrefix, version)
  {
    var step, reminder := RenameMessages(ex, payload);
    var firstReminder := "Commit the necessary changes to [`" + payload.newBranchName + "`](" + payload.newBranchUrl + ").";
    if |commitPrefix| > 0 {
      firstReminder := firstReminder + "\n> Consider commiting with the prefix `" + commitPrefix + "`.";
    }
    assert firstReminder == CommitReminder(payload, commitPrefix);
    entries := [Entry(TaskId, true, true, [step], [firstReminder, reminder])];
    if ex.hotfixActive {
      firstReminder := "Open a Pull Request from [`" + payload.baseBranchName + "`](" + payload.baseBranchUrl + ") to [`"
                       + ex.mainBranch + "`](" + ex.TreeUrl(ex.mainBranch) + ") after merging into [`"
                       + payload.baseBranchName + "`](" + payload.baseBranchUrl + "). [New PR]("
                       + CompareUrl(ex, ex.mainBranch, payload.baseBranchName) + ")";
      if |commitPrefix| > 0 {
        firstReminder := firstReminder + "\n> Consider commiting with the prefix `" + commitPrefix + "`.";
      }
      assert firstReminder == MergeReminder(ex, payload, commitPrefix);
      entries := entries + [Entry(TaskId, true, true, [], [firstReminder, TagReminder(ex, version)])];
    }
  }

  /** From `manageBranches` on: `entries` is what was pushed before a throw
      (or in all, when `threw` is false). */
  method RecordBranch(ex: Execution, managed: Option<seq<Result>>, prefix: Option<string>, version: string)
    returns (entries: seq<Result>, threw: bool)
    ensures entries + (if threw then [PrepareFailure()] else []) == AfterManage(ex, managed, prefix, version)
  {
    if managed.None? {
      assert [] + [PrepareFailure()] == [PrepareFailure()];
      return [], true;
    }
    var branchesResult := managed.value;
    entries := branchesResult;
    if |branchesResult| == 0 {
      assert [] + [PrepareFailure()] == [PrepareFailure()];
      return entries, true;
    }
    var lastAction := branchesResult[|branchesResult| - 1];
    threw := false;
    if lastAction.success && lastAction.executed {
      if lastAction.payload.None? || prefix.None? {
        return entries, true;
      }
      var created := Announce(ex, lastAction.payload.value, prefix.value, version);
      entries := entries + created;
    }
    if lastAction.success && lastAction.executed {
      ManagedAnnounced(ex, branchesResult, prefix.value, version);
    } else {
      ManagedStopped(ex, branchesResult, prefix, version);
    }
    assert entries + [] == entries;
  }

  /** A last `manageBranches` result that failed or did not run ends the
      log with the results themselves. */
  lemma ManagedStopped(ex: Execution, ms: seq<Result>, prefix: Option<string>, version: string)
    requires |ms| > 0 && !(ms[|ms| - 1].success && ms[|ms| - 1].executed)
    ensures AfterManage(ex, Some(ms), prefix, version) == ms
  {
  }

  /** A last `manageBranches` result that ran and carries a payload is
      followed by the branch entries. */
  lemma ManagedAnnounced(ex: Execution, ms: seq<Result>, prefix: string, version: string)
    requires |ms| > 0 && ms[|ms| - 1].success && ms[|ms| - 1].executed && ms[|ms| - 1].payload.Some?
    ensures AfterManage(ex, Some(ms), Some(prefix), version) == ms + BranchEntries(ex, ms[|ms| - 1].payload.value, prefix, version)
  {
  }

  /** The hotfix plan (lines 44-100 of the use case): bump the tag, assign
      the hotfix fields, then create the branch unless it is listed. */
  method PlanHotfix(ex: Execution, lastTag: string, branches: seq<string>, link: Option<seq<Result>>)
    returns (version: string, hot: seq<Result>, threw: bool)
    modifies ex
    ensures version == NextVersion(lastTag)
    ensures ex.hotfixVersion == Some(version)
    ensures ex.hotfixBranch == Some(HotfixBranchName(ex, version))
    ensures ex.configHotfixBranch == Some(HotfixBranchName(ex, version))
    ensures ex.configResults == old(ex.configResults)
    ensures threw <==> HotfixEntries(ex, lastTag, HotfixBranchName(ex, version), branches, link).None?
    ensures threw ==> hot == []
    ensures !threw ==> hot == HotfixEntries(ex, lastTag, HotfixBranchName(ex, version), branches, link).value
  {
    version := IncrementHotfixVersion(lastTag);
    ex.hotfixVersion := Some(version);
    ex.hotfixBranch := Some(ex.hotfixTree + "/" + version);
    ex.configHotfixBranch := ex.hotfixBranch;
    hot, threw := CreateHotfix(ex, lastTag, ex.hotfixTree + "/" + version, branches, link);
  }

  /** `invoke`: the returned log is `Prepare`'s, and the hotfix version and
      branch (and the stored configuration's hotfix branch) are assigned
      exactly when a hotfix was planned; nothing else changes. */
  method Invoke(ex: Execution, r: Replies) returns (result: seq<Result>)
    modifies ex
    ensures result == Prepare(ex, r).log
    ensures Prepare(ex, r).plan.Some? ==>
              && ex.hotfixVersion == Some(Prepare(ex, r).plan.value.version)
              && ex.hotfixBranch == Some(Prepare(ex, r).plan.value.branch)
              && ex.configHotfixBranch == Some(Prepare(ex, r).plan.value.branch)
    ensures Prepare(ex, r).plan.None? ==>
              && ex.hotfixVersion == old(ex.hotfixVersion)
              && ex.hotfixBranch == old(ex.hotfixBranch)
              && ex.configHotfixBranch == old(ex.configHotfixBranch)
    ensures ex.configResults == old(ex.configResults)
  {
    if |ex.issueTitle| == 0 {
      result := [];
    } else if r.branches.None? {
      result := [CoffeeEntry(), PrepareFailure()];
    } else if ex.hotfixActive && r.latestTag.Some? {
      result := InvokeHotfix(ex, r);
    } else if ex.hotfixActive {
      result := [CoffeeEntry(), NoTagEntry()];
    } else {
      result := InvokeBranch(ex, r);
    }
  }

  /** The hotfix path once a tag is known: plan the hotfix
      branch, then record what `manageBranches` created. */
  method InvokeHotfix(ex: Execution, r: Replies) returns (result: seq<Result>)
    requires ReachesHotfix(ex, r) && ex.hotfixActive && r.latestTag.Some?
    modifies ex
    ensures result == Prepare(ex, r).log && Prepare(ex, r).plan.Some?
    ensures ex.hotfixVersion == Some(Prepare(ex, r).plan.value.version)
    ensures ex.hotfixBranch == Some(Prepare(ex, r).plan.value.branch)
    ensures ex.configHotfixBranch == Some(Prepare(ex, r).plan.value.branch)
    ensures ex.configResults == old(ex.configResults)
  {
    var version, hot, threw := PlanHotfix(ex, r.latestTag.value, r.branches.value, r.linkResult);
    result := [CoffeeEntry()] + hot;
    if threw {
      result := result + [PrepareFailure()];
    } else {
      var tail;
      tail, threw := RecordBranch(ex, r.managed, r.commitPrefix, version);
      result := result + tail + (if threw then [PrepareFailure()] else []);
    }
  }

  /** The feature and bugfix path: record what `manageBranches` created. */
  method InvokeBranch(ex: Execution, r: Replies) returns (result: seq<Result>)
    requires ReachesHotfix(ex, r) && !ex.hotfixActive
    ensures result == Prepare(ex, r).log
  {
    var tail, threw := RecordBranch(ex, r.managed, r.commitPrefix, "");
    result := [CoffeeEntry()] + tail + (if threw then [PrepareFailure()] else []);
  }
}
