/**
 * Branch naming and base-branch selection (`BranchRepository`): the slug made
 * from an issue title, the `type/number-slug` branch name, the search for an
 * existing feature or bugfix branch of the same issue, and the commit a
 * linked branch is created at.
 */
module BranchRepository {
  import opened Wrappers
  import opened Text

  // The slug an issue title becomes, stage by stage.

  /** `toLowerCase` on one character, restricted to ASCII letters. */
  function LowerAscii(ch: char): char {
    if 'A' <= ch <= 'Z' then (ch as int + 32) as char else ch
  }

  function Lowercase(s: string): (r: string)
    ensures |r| == |s| && forall k :: 0 <= k < |s| ==> r[k] == LowerAscii(s[k])
  {
    seq(|s|, k requires 0 <= k < |s| => LowerAscii(s[k]))
  }

  /** The characters `[a-z0-9 ]` that survive the first `replace`. */
  predicate IsSlugInput(ch: char) {
    ('a' <= ch <= 'z') || IsDigit(ch) || ch == ' '
  }

  /** The characters a finished slug is made of: `[a-z0-9-]`. */
  predicate IsSlugChar(ch: char) {
    ('a' <= ch <= 'z') || IsDigit(ch) || ch == '-'
  }

  predicate AllSlugChars(s: string) {
    forall k :: 0 <= k < |s| ==> IsSlugChar(s[k])
  }

  /** No two `-` in a row. */
  predicate NoDoubleDash(s: string) {
    forall k :: 0 < k < |s| ==> !(s[k - 1] == '-' && s[k] == '-')
  }

  /** `replace(/[^a-z0-9 ]/g, '')`: drops every other character and keeps
      the order of the rest. */
  function KeepSlugInput(s: string): (r: string)
    ensures forall k :: 0 <= k < |r| ==> IsSlugInput(r[k])
    ensures forall ch :: ch in r ==> ch in s
    ensures (forall k :: 0 <= k < |s| ==> IsSlugInput(s[k])) ==> r == s
  {
    if |s| == 0 then ""
    else if IsSlugInput(s[0]) then [s[0]] + KeepSlugInput(s[1..])
    else KeepSlugInput(s[1..])
  }

  /** `replace(/ /g, '-')`. */
  function SpacesToDashes(s: string): (r: string)
    ensures |r| == |s| && forall k :: 0 <= k < |s| ==> r[k] == (if s[k] == ' ' then '-' else s[k])
  {
    seq(|s|, k requires 0 <= k < |s| => if s[k] == ' ' then '-' else s[k])
  }

  /** The literal `"<issueNumber>-"` the slug must not repeat. */
  function IssuePrefix(issueNumber: int): (r: string)
    ensures |r| >= 2 && r[|r| - 1] == '-'
  {
    IntToDecimal(issueNumber) + "-"
  }

  /** Removes one leading `"<issueNumber>-"`, if there is one. */
  function StripIssuePrefix(s: string, issueNumber: int): (r: string)
    ensures r == s || (IssuePrefix(issueNumber) <= s && r == s[|IssuePrefix(issueNumber)|..])
    ensures AllSlugChars(s) ==> AllSlugChars(r)
  {
    var prefix := IssuePrefix(issueNumber);
    if prefix <= s then s[|prefix|..] else s
  }

  /** `replace(/-+/g, '-')`: every run of dashes becomes one dash. */
  function CollapseDashes(s: string): (r: string)
    ensures |s| > 0 ==> |r| > 0 && r[0] == s[0] && r[|r| - 1] == s[|s| - 1]
    ensures AllSlugChars(s) ==> AllSlugChars(r)
    ensures NoDoubleDash(r)
    ensures NoDoubleDash(s) ==> r == s
  {
    if |s| <= 1 then s
    else if s[0] == '-' && s[1] == '-' then CollapseDashes(s[1..])
    else
      var rest := CollapseDashes(s[1..]);
      assert NoDoubleDash(s) ==> NoDoubleDash(s[1..]);
      assert AllSlugChars(s) ==> AllSlugChars(s[1..]);
      [s[0]] + rest
  }

  /** `replace(/^-|-$/g, '')`: removes one leading and one trailing dash. */
  function TrimDashes(s: string): (r: string)
    ensures AllSlugChars(s) ==> AllSlugChars(r)
    ensures NoDoubleDash(s) ==> NoDoubleDash(r)
    ensures NoDoubleDash(s) && |r| > 0 ==> r[0] != '-' && r[|r| - 1] != '-'
    ensures (|s| == 0 || (s[0] != '-' && s[|s| - 1] != '-')) ==> r == s
  {
    var a := if |s| > 0 && s[0] == '-' then s[1..] else s;
    var r := if |a| > 0 && a[|a| - 1] == '-' then a[..|a| - 1] else a;
    assert NoDoubleDash(s) ==> NoDoubleDash(a) && NoDoubleDash(r);
    assert AllSlugChars(s) ==> AllSlugChars(a) && AllSlugChars(r);
    assert NoDoubleDash(s) && |a| > 0 && s[0] == '-' ==> a[0] == s[1];
    r
  }

  /** `formatBranchName`: the slug of an issue title. Whatever the title, the
      slug is made of `a-z`, `0-9` and `-` only, never holds two dashes in a
      row, and neither starts nor ends with a dash. */
  function FormatBranchName(issueTitle: string, issueNumber: int): (r: string)
    ensures AllSlugChars(r)
    ensures NoDoubleDash(r)
    ensures |r| > 0 ==> r[0] != '-' && r[|r| - 1] != '-'
  {
    var kept := KeepSlugInput(Lowercase(issueTitle));
    var dashed := SpacesToDashes(kept);
    assert AllSlugChars(dashed) by {
      forall k | 0 <= k < |dashed| ensures IsSlugChar(dashed[k]) {
        assert IsSlugInput(kept[k]);
      }
    }
    var collapsed := CollapseDashes(StripIssuePrefix(dashed, issueNumber));
    TrimDashes(collapsed)
  }

  predicate PlainTitle(s: string) {
    forall k :: 0 <= k < |s| ==> ('a' <= s[k] <= 'z') || IsDigit(s[k])
  }

  /** A title of lowercase letters and digits alone is its own slug. */
  lemma {:induction false} PlainTitleUnchanged(issueTitle: string, issueNumber: int)
    requires PlainTitle(issueTitle)
    ensures FormatBranchName(issueTitle, issueNumber) == issueTitle
  {
    PlainTitleKept(issueTitle);
    PlainTitleNotStripped(issueTitle, issueNumber);
    assert NoDoubleDash(issueTitle);
    assert |issueTitle| > 0 ==> issueTitle[0] != '-' && issueTitle[|issueTitle| - 1] != '-';
  }

  lemma PlainTitleKept(issueTitle: string)
    requires PlainTitle(issueTitle)
    ensures SpacesToDashes(KeepSlugInput(Lowercase(issueTitle))) == issueTitle
  {
    assert Lowercase(issueTitle) == issueTitle;
    assert forall k :: 0 <= k < |issueTitle| ==> IsSlugInput(issueTitle[k]);
    assert SpacesToDashes(issueTitle) == issueTitle;
  }

  lemma PlainTitleNotStripped(issueTitle: string, issueNumber: int)
    requires PlainTitle(issueTitle)
    ensures StripIssuePrefix(issueTitle, issueNumber) == issueTitle
  {
    var prefix := IssuePrefix(issueNumber);
    if |prefix| <= |issueTitle| {
      assert issueTitle[|prefix| - 1] != prefix[|prefix| - 1];
    }
  }

  /** A title that starts with the issue number and a space loses that
      prefix exactly once: the rest is slugged as usual, even when it starts
      with the number again. */
  lemma {:induction false} IssuePrefixStrippedOnce(rest: string, issueNumber: nat)
    requires forall k :: 0 <= k < |rest| ==> IsSlugInput(rest[k])
    ensures FormatBranchName(IntToDecimal(issueNumber) + " " + rest, issueNumber)
            == TrimDashes(CollapseDashes(SpacesToDashes(rest)))
  {
    var title := IntToDecimal(issueNumber) + " " + rest;
    var digits := IntToDecimal(issueNumber);
    assert forall k :: 0 <= k < |title| ==> IsSlugInput(title[k]) by {
      forall k | 0 <= k < |title| ensures IsSlugInput(title[k]) {
        if k < |digits| { assert title[k] == digits[k]; }
        else if k == |digits| { assert title[k] == ' '; }
        else { assert title[k] == rest[k - |digits| - 1]; }
      }
    }
    assert Lowercase(title) == title;
    var dashed := SpacesToDashes(title);
    assert dashed == IssuePrefix(issueNumber) + SpacesToDashes(rest);
    assert StripIssuePrefix(dashed, issueNumber) == SpacesToDashes(rest);
  }

  // The branch name and the switch search.

  /** `${branchType}/${issueNumber}-${slug}`. */
  function NewBranchName(branchType: string, issueNumber: int, issueTitle: string): string {
    branchType + "/" + IssuePrefix(issueNumber) + FormatBranchName(issueTitle, issueNumber)
  }

  /** The branch types a switch is searched over, in the order they are tried. */
  const BranchTypes: seq<string> := ["feature", "bugfix"]

  /** `${type}/${issueNumber}-`: what a branch of that type for the issue holds. */
  function SwitchPrefix(branchType: string, issueNumber: int): string {
    branchType + "/" + IssuePrefix(issueNumber)
  }

  /** A new branch's name begins with the switch prefix of its own type, so a
      later search for that type and issue matches it. */
  lemma NewBranchHasSwitchPrefix(branchType: string, issueNumber: int, issueTitle: string)
    ensures OccursAt(NewBranchName(branchType, issueNumber, issueTitle), SwitchPrefix(branchType, issueNumber), 0)
    ensures Contains(NewBranchName(branchType, issueNumber, issueTitle), SwitchPrefix(branchType, issueNumber))
  {
    var name := NewBranchName(branchType, issueNumber, issueTitle);
    var prefix := SwitchPrefix(branchType, issueNumber);
    assert name == prefix + FormatBranchName(issueTitle, issueNumber);
    assert name[0..|prefix|] == prefix;
  }

  /** `names.find(name => name.indexOf(prefix) > -1)`: the first listed name
      that contains `prefix`. */
  function FindContaining(names: seq<string>, prefix: string): (r: Option<string>)
    ensures r.None? <==> forall k :: 0 <= k < |names| ==> !Contains(names[k], prefix)
    ensures r.Some? ==> exists k :: 0 <= k < |names| && names[k] == r.value
                                    && Contains(names[k], prefix)
                                    && forall j :: 0 <= j < k ==> !Contains(names[j], prefix)
  {
    if |names| == 0 then None
    else if Contains(names[0], prefix) then Some(names[0])
    else
      var r := FindContaining(names[1..], prefix);
      assert forall k :: 1 <= k < |names| ==> names[k] == names[1..][k - 1];
      if r.Some? then
        ghost var k :| 0 <= k < |names[1..]| && names[1..][k] == r.value
                       && Contains(names[1..][k], prefix)
                       && forall j :: 0 <= j < k ==> !Contains(names[1..][j], prefix);
        assert names[k + 1] == r.value;
        r
      else r
  }

  /** The switch search over `types`, tried in order; the first type with a
      matching branch decides. */
  function SearchTypes(names: seq<string>, types: seq<string>, issueNumber: int): Option<string> {
    if |types| == 0 then None
    else
      match FindContaining(names, SwitchPrefix(types[0], issueNumber))
      case Some(b) => Some(b)
      case None => SearchTypes(names, types[1..], issueNumber)
  }

  /** The existing feature or bugfix branch of the issue, if any. */
  function SwitchSearch(names: seq<string>, issueNumber: int): Option<string> {
    SearchTypes(names, BranchTypes, issueNumber)
  }

  /** The search prefers feature to bugfix: any listed branch holding the
      feature prefix makes the result the first such branch; otherwise the
      first holding the bugfix prefix; otherwise nothing. */
  lemma SwitchSearchOrder(names: seq<string>, issueNumber: int)
    ensures FindContaining(names, SwitchPrefix("feature", issueNumber)).Some? ==>
              SwitchSearch(names, issueNumber) == FindContaining(names, SwitchPrefix("feature", issueNumber))
    ensures FindContaining(names, SwitchPrefix("feature", issueNumber)).None? ==>
              SwitchSearch(names, issueNumber) == FindContaining(names, SwitchPrefix("bugfix", issueNumber))
  {
    var feature := FindContaining(names, SwitchPrefix("feature", issueNumber));
    var bugfix := FindContaining(names, SwitchPrefix("bugfix", issueNumber));
    assert BranchTypes[0] == "feature" && BranchTypes[1..] == ["bugfix"];
    assert ["bugfix"][0] == "bugfix" && ["bugfix"][1..] == [];
    assert SearchTypes(names, ["bugfix"], issueNumber) == bugfix;
  }

  /** Nothing is found exactly when no listed branch holds either prefix. */
  lemma SwitchSearchNone(names: seq<string>, issueNumber: int)
    ensures SwitchSearch(names, issueNumber).None? <==>
              forall k :: 0 <= k < |names| ==>
                !Contains(names[k], SwitchPrefix("feature", issueNumber))
                && !Contains(names[k], SwitchPrefix("bugfix", issueNumber))
  {
    SwitchSearchOrder(names, issueNumber);
  }

  /** A branch this module created for a feature or bugfix is found again by
      the switch search of a later run for the same issue. */
  lemma CreatedBranchIsFound(names: seq<string>, branchType: string, issueNumber: int, issueTitle: string)
    requires branchType in BranchTypes
    requires NewBranchName(branchType, issueNumber, issueTitle) in names
    ensures SwitchSearch(names, issueNumber).Some?
  {
    NewBranchHasSwitchPrefix(branchType, issueNumber, issueTitle);
    SwitchSearchNone(names, issueNumber);
  }

  // manageBranches

  /** The arguments `manageBranches` hands to `createLinkedBranch`. */
  datatype LinkRequest = LinkRequest(baseBranchName: string, newBranchName: string, issueNumber: int, oid: Option<string>)

  /** What `manageBranches` decides: the link it requests, and the
      feature/bugfix branch it found (its return value). */
  datatype BranchPlan = BranchPlan(request: LinkRequest, origin: Option<string>)

  /** `manageBranches`, given the branch names the listing returned. The base
      is the development branch unless a feature/bugfix branch of the issue
      exists (searched feature first) or the issue is a hotfix, in which case
      it is the hotfix branch and no search happens. */
  method ManageBranches(
    issueNumber: int,
    issueTitle: string,
    branchType: string,
    developmentBranch: string,
    hotfixBranch: string,
    isHotfix: bool,
    listed: seq<string>)
    returns (plan: BranchPlan)
    ensures plan.request.newBranchName == NewBranchName(branchType, issueNumber, issueTitle)
    ensures plan.request.issueNumber == issueNumber && plan.request.oid.None?
    ensures isHotfix ==> plan.request.baseBranchName == hotfixBranch && plan.origin.None?
    ensures !isHotfix ==> plan.origin == SwitchSearch(listed, issueNumber)
    ensures !isHotfix ==> plan.request.baseBranchName == plan.origin.GetOr(developmentBranch)
  {
    var newBranchName := branchType + "/" + IssuePrefix(issueNumber) + FormatBranchName(issueTitle, issueNumber);
    var baseBranchName := developmentBranch;
    var origin: Option<string> := None;
    if !isHotfix {
      var i := 0;
      while i < |BranchTypes|
        invariant 0 <= i <= |BranchTypes|
        invariant origin.None? && baseBranchName == developmentBranch
        invariant SwitchSearch(listed, issueNumber) == SearchTypes(listed, BranchTypes[i..], issueNumber)
      {
        var prefix := BranchTypes[i] + "/" + IssuePrefix(issueNumber);
        var matching := FindContaining(listed, prefix);
        if matching.Some? {
          baseBranchName := matching.value;
          origin := Some(baseBranchName);
          break;
        }
        assert BranchTypes[i..][1..] == BranchTypes[i + 1..];
        i := i + 1;
      }
    } else {
      baseBranchName := hotfixBranch;
    }
    plan := BranchPlan(LinkRequest(baseBranchName, newBranchName, issueNumber, None), origin);
  }

  // createLinkedBranch

  /** The `createLinkedBranch` mutation's arguments. */
  datatype LinkMutation = LinkMutation(name: string, oid: string)

  /** `createLinkedBranch`'s choice of name and commit: the name gets a
      leading slash, and the commit is the explicit `oid` or else the tip of
      `refs/heads/master`, whatever the base branch is. */
  function LinkedBranchMutation(request: LinkRequest, masterTip: string): (r: LinkMutation)
    ensures r.name == "/" + request.newBranchName
    ensures request.oid.None? ==> r.oid == masterTip
    ensures request.oid.Some? ==> r.oid == request.oid.value
  {
    LinkMutation("/" + request.newBranchName, request.oid.GetOr(masterTip))
  }

  /** A branch `manageBranches` links starts at the tip of master, not at
      its base branch: two plans that differ only in the base link the same
      commit. */
  lemma ManagedLinkStartsAtMaster(request: LinkRequest, otherBase: string, masterTip: string)
    requires request.oid.None?
    ensures LinkedBranchMutation(request, masterTip).oid == masterTip
    ensures LinkedBranchMutation(request.(baseBranchName := otherBase), masterTip)
            == LinkedBranchMutation(request, masterTip)
  {
  }
}
