/**
 * The `Execution` object every use case receives: the settings of the run,
 * fixed once `setup` has read the event, the labels and the inputs, and the
 * few fields the use cases in this model write back (the hotfix version and
 * branch, and the stored configuration's hotfix branch and result log).
 */
module ExecutionState {
  import opened Wrappers
  import opened Results

  class Execution {
    const owner: string
    const repo: string
    /** The issue number, or the pull request number on pull request events;
        -1 when the event carries neither. */
    const number: int
    const issueNumber: int
    const pullRequestNumber: int
    const issueTitle: string
    const issueAction: bool
    const pullRequestAction: bool
    const mustRun: bool
    const mustCleanAll: bool
    const emojiLabeledTitle: bool
    const hotfixActive: bool
    const isBugfix: bool
    const isFeature: bool
    const mainBranch: string
    const developmentBranch: string
    const featureTree: string
    const bugfixTree: string
    const hotfixTree: string

    /** `hotfix.version` and `hotfix.branch`. */
    var hotfixVersion: Option<string>
    var hotfixBranch: Option<string>
    /** `currentConfiguration.hotfixBranch` and `currentConfiguration.results`. */
    var configHotfixBranch: Option<string>
    var configResults: seq<Result>

    /** An execution as `setup` leaves it: no hotfix computed yet and an
        empty result log. */
    constructor (owner: string, repo: string, number: int, issueNumber: int, pullRequestNumber: int,
                 issueTitle: string, issueAction: bool, pullRequestAction: bool,
                 mustRun: bool, mustCleanAll: bool, emojiLabeledTitle: bool,
                 hotfixActive: bool, isBugfix: bool, isFeature: bool,
                 mainBranch: string, developmentBranch: string,
                 featureTree: string, bugfixTree: string, hotfixTree: string)
      ensures this.owner == owner && this.repo == repo && this.number == number
      ensures this.issueNumber == issueNumber && this.pullRequestNumber == pullRequestNumber
      ensures this.issueTitle == issueTitle
      ensures this.issueAction == issueAction && this.pullRequestAction == pullRequestAction
      ensures this.mustRun == mustRun && this.mustCleanAll == mustCleanAll
      ensures this.emojiLabeledTitle == emojiLabeledTitle
      ensures this.hotfixActive == hotfixActive && this.isBugfix == isBugfix && this.isFeature == isFeature
      ensures this.mainBranch == mainBranch && this.developmentBranch == developmentBranch
      ensures this.featureTree == featureTree && this.bugfixTree == bugfixTree && this.hotfixTree == hotfixTree
      ensures hotfixVersion.None? && hotfixBranch.None? && configHotfixBranch.None? && configResults == []
    {
      this.owner := owner;
      this.repo := repo;
      this.number := number;
      this.issueNumber := issueNumber;
      this.pullRequestNumber := pullRequestNumber;
      this.issueTitle := issueTitle;
      this.issueAction := issueAction;
      this.pullRequestAction := pullRequestAction;
      this.mustRun := mustRun;
      this.mustCleanAll := mustCleanAll;
      this.emojiLabeledTitle := emojiLabeledTitle;
      this.hotfixActive := hotfixActive;
      this.isBugfix := isBugfix;
      this.isFeature := isFeature;
      this.mainBranch := mainBranch;
      this.developmentBranch := developmentBranch;
      this.featureTree := featureTree;
      this.bugfixTree := bugfixTree;
      this.hotfixTree := hotfixTree;
      hotfixVersion := None;
      hotfixBranch := None;
      configHotfixBranch := None;
      configResults := [];
    }

    /** `https://github.com/<owner>/<repo>/tree/<branch>`. */
    function TreeUrl(branch: string): (r: string)
      ensures |r| > |branch|
    {
      "https://github.com/" + owner + "/" + repo + "/tree/" + branch
    }
  }
}
