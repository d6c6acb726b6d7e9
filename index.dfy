/**
 * The action's entry point (`index.ts`): the project URL list read from
 * the `project-urls` input, the project details loaded for it, and the
 * order in which `run` skips, cleans up, runs the issue or pull request
 * use cases and finishes by publishing and storing the results.
 *
 * The use cases `run` dispatches to outside this model (branch removal,
 * issue and pull request linking, configuration storage) are inputs: what
 * they returned, or the message they threw.
 */
module Index {
  import opened Wrappers
  import opened Text
  import opened Results
  import opened ExecutionState
  import opened ProjectDetails
  import ProjectRepository
  import PublishResume

  // The project URL list.

  function TrimAll(pieces: seq<string>): (r: seq<string>)
    ensures |r| == |pieces| && forall k :: 0 <= k < |pieces| ==> r[k] == Trim(pieces[k])
  {
    seq(|pieces|, k requires 0 <= k < |pieces| => Trim(pieces[k]))
  }

  /** `filter(url => url.length > 0)`. */
  function NonEmpty(xs: seq<string>): (r: seq<string>)
    ensures forall k :: 0 <= k < |r| ==> |r[k]| > 0
    ensures forall x :: x in r ==> x in xs
    ensures (forall k :: 0 <= k < |xs| ==> |xs[k]| > 0) ==> r == xs
    decreases |xs|
  {
    if |xs| == 0 then []
    else if |xs[0]| > 0 then [xs[0]] + NonEmpty(xs[1..])
    else NonEmpty(xs[1..])
  }

  /** Filtering keeps the order: filtering a concatenation filters each part. */
  lemma {:induction false} NonEmptyAppend(a: seq<string>, b: seq<string>)
    ensures NonEmpty(a + b) == NonEmpty(a) + NonEmpty(b)
    decreases |a|
  {
    if |a| > 0 {
      NonEmptyAppend(a[1..], b);
      assert (a + b)[1..] == a[1..] + b;
    } else {
      assert a + b == b;
    }
  }

  /** A URL as the list holds it: not empty, no comma, no white space at
      either end. */
  predicate CleanUrl(u: string) {
    |u| > 0 && ',' !in u && !IsSpace(u[0]) && !IsSpace(u[|u| - 1])
  }

  /** The project URLs of the input: the comma-separated pieces, trimmed,
      empty ones dropped, in their order. */
  function ProjectUrls(input: string): (r: seq<string>)
    ensures forall k :: 0 <= k < |r| ==> CleanUrl(r[k])
  {
    var pieces := SplitOn(input, ',');
    TrimmedPiecesClean(pieces);
    NonEmpty(TrimAll(pieces))
  }

  lemma TrimmedPiecesClean(pieces: seq<string>)
    requires forall k :: 0 <= k < |pieces| ==> ',' !in pieces[k]
    ensures forall x :: x in NonEmpty(TrimAll(pieces)) ==> CleanUrl(x)
  {
    var trimmed := TrimAll(pieces);
    forall k | 0 <= k < |pieces| && |trimmed[k]| > 0 ensures CleanUrl(trimmed[k]) {
      TrimKeepsOut(pieces[k], ',');
    }
  }

  lemma TrimKeepsOut(s: string, c: char)
    requires c !in s
    ensures c !in Trim(s)
  {
    var a, b :| 0 <= a <= b <= |s| && Trim(s) == s[a..b];
    assert forall x :: x in s[a..b] ==> x in s;
  }

  /** An empty input lists no project. */
  lemma NoUrls()
    ensures ProjectUrls("") == []
  {
    assert SplitOn("", ',') == [""];
    assert TrimAll([""]) == [""];
  }

  lemma TrimAllClean(urls: seq<string>)
    requires forall k :: 0 <= k < |urls| ==> CleanUrl(urls[k])
    ensures TrimAll(urls) == urls
  {
    forall k | 0 <= k < |urls| ensures Trim(urls[k]) == urls[k] {
      TrimmedUnchanged(urls[k]);
    }
  }

  /** Joining URLs with commas and reading the list back gives the URLs. */
  lemma ProjectUrlsRoundTrip(urls: seq<string>)
    requires forall k :: 0 <= k < |urls| ==> CleanUrl(urls[k])
    ensures ProjectUrls(JoinWith(urls, ',')) == urls
  {
    if |urls| == 0 {
      NoUrls();
    } else {
      SplitJoin(urls, ',');
      TrimAllClean(urls);
      assert NonEmpty(urls) == urls;
    }
  }

  /** The first comma splits the list: the trimmed first piece (if not
      empty) comes first, then the URLs of the rest, in order. */
  lemma ProjectUrlsAtComma(a: string, b: string)
    requires ',' !in a
    ensures ProjectUrls(a + "," + b) == NonEmpty([Trim(a)]) + ProjectUrls(b)
  {
    SplitPrefixed(a, ',', b);
    var rest := SplitOn(b, ',');
    assert TrimAll([a] + rest) == [Trim(a)] + TrimAll(rest);
    NonEmptyAppend([Trim(a)], TrimAll(rest));
  }

  // The project details, one per URL.

  /** The detail lookup: `getProjectDetail` against the project query. */
  function Loader(query: ProjectRepository.ProjectQuery): string -> Outcome<ProjectDetail> {
    url => ProjectRepository.GetProjectDetail(url, query)
  }

  /** The details of `urls` in order, or the first error thrown. */
  function DetailsOf(urls: seq<string>, load: string -> Outcome<ProjectDetail>): Outcome<seq<ProjectDetail>>
    decreases |urls|
  {
    if |urls| == 0 then Done([])
    else
      match DetailsOf(urls[..|urls| - 1], load)
      case Thrown(m) => Thrown(m)
      case Done(ds) =>
        match load(urls[|urls| - 1])
        case Thrown(m) => Thrown(m)
        case Done(d) => Done(ds + [d])
  }

  /** Once a prefix of the URLs throws, every longer prefix throws the same. */
  lemma {:induction false} ThrownPrefixStays(urls: seq<string>, i: nat, load: string -> Outcome<ProjectDetail>)
    requires i <= |urls| && DetailsOf(urls[..i], load).Thrown?
    ensures DetailsOf(urls, load) == DetailsOf(urls[..i], load)
    decreases |urls| - i
  {
    if i < |urls| {
      assert urls[..i + 1][..i] == urls[..i];
      ThrownPrefixStays(urls, i + 1, load);
    } else {
      assert urls[..i] == urls;
    }
  }

  /** The `for ... of` loop: the details are pushed one by one; the first
      error ends it. */
  method CollectProjects(urls: seq<string>, query: ProjectRepository.ProjectQuery)
    returns (projects: Outcome<seq<ProjectDetail>>)
    ensures projects == DetailsOf(urls, Loader(query))
  {
    var acc: seq<ProjectDetail> := [];
    for i := 0 to |urls|
      invariant DetailsOf(urls[..i], Loader(query)) == Done(acc)
    {
      assert urls[..i + 1][..i] == urls[..i];
      var detail := ProjectRepository.GetProjectDetail(urls[i], query);
      assert Loader(query)(urls[i]) == detail;
      if detail.Thrown? {
        ThrownPrefixStays(urls, i + 1, Loader(query));
        return Thrown(detail.message);
      }
      acc := acc + [detail.value];
    }
    assert urls[..|urls|] == urls;
    projects := Done(acc);
  }

  /** One detail per URL, in order, exactly when no URL fails. */
  lemma {:induction false} DetailsPerUrl(urls: seq<string>, load: string -> Outcome<ProjectDetail>)
    ensures DetailsOf(urls, load).Done? <==> forall k :: 0 <= k < |urls| ==> load(urls[k]).Done?
    ensures DetailsOf(urls, load).Done? ==>
              && |DetailsOf(urls, load).value| == |urls|
              && forall k :: 0 <= k < |urls| ==> DetailsOf(urls, load).value[k] == load(urls[k]).value
    decreases |urls|
  {
    if |urls| > 0 {
      var init := urls[..|urls| - 1];
      DetailsPerUrl(init, load);
      assert forall k :: 0 <= k < |init| ==> init[k] == urls[k];
    }
  }

  /** When loading fails, the error is that of the first URL that fails. */
  lemma {:induction false} FirstFailureReported(urls: seq<string>, load: string -> Outcome<ProjectDetail>)
    requires DetailsOf(urls, load).Thrown?
    ensures exists k :: && 0 <= k < |urls|
                        && load(urls[k]) == Thrown(DetailsOf(urls, load).message)
                        && forall j :: 0 <= j < k ==> load(urls[j]).Done?
    decreases |urls|
  {
    var init := urls[..|urls| - 1];
    var last := |urls| - 1;
    assert forall k :: 0 <= k < |init| ==> init[k] == urls[k];
    if DetailsOf(init, load).Thrown? {
      FirstFailureReported(init, load);
      var k :| && 0 <= k < |init|
               && load(init[k]) == Thrown(DetailsOf(init, load).message)
               && forall j :: 0 <= j < k ==> load(init[j]).Done?;
      assert load(urls[k]) == Thrown(DetailsOf(urls, load).message);
    } else {
      DetailsPerUrl(init, load);
      assert load(urls[last]) == Thrown(DetailsOf(urls, load).message);
    }
  }

  /** Lines 29-39: the URL list parsed and every project loaded; an error
      rejects `run` before anything else happens. */
  method LoadProjects(input: string, query: ProjectRepository.ProjectQuery)
    returns (projects: Outcome<seq<ProjectDetail>>)
    ensures projects == DetailsOf(ProjectUrls(input), Loader(query))
  {
    var projectUrls := ProjectUrls(input);
    projects := CollectProjects(projectUrls, query);
  }

  // The dispatch in `run` and `finishWithResults`.

  function SkipMessage(n: int): string {
    "Issue " + IntToDecimal(n) + ". Skipping."
  }

  function UnhandledMessage(action: string): string {
    "Action not handled: " + action
  }

  /** What `run` does that can be observed: `setFailed` messages, an error
      that escapes `run`, the posted comment, and the stored configuration. */
  datatype Event =
    | Failed(message: string)
    | Rejected(message: string)
    | Commented(comment: PublishResume.Comment)
    | Stored(hotfixBranch: Option<string>, results: seq<Result>)

  /** Where the dispatch ends: it stops with some events, or finishes with
      the results gathered (after some events). */
  datatype Dispatched = Stop(events: seq<Event>) | Finish(before: seq<Event>, results: seq<Result>)

  /** The dispatch of lines 97-127, given what the cleanup, issue link and
      pull request link use cases return or throw. */
  function Dispatch(ex: Execution, action: string, cleanup: Outcome<seq<Result>>,
                    issueLink: Outcome<seq<Result>>, pullRequestLink: Outcome<seq<Result>>): Dispatched {
    if ex.number == -1 then Stop([Failed(SkipMessage(ex.number))])
    else if ex.mustCleanAll then
      match cleanup
      case Thrown(m) => Stop([Rejected(m)])
      case Done(rs) => Finish([], rs)
    else if !ex.mustRun then Stop([Failed(SkipMessage(ex.number))])
    else if ex.issueAction then
      match issueLink
      case Thrown(m) => Stop([Failed(m)])
      case Done(rs) => Finish([], rs)
    else if ex.pullRequestAction then
      match pullRequestLink
      case Thrown(m) => Stop([Failed(m)])
      case Done(rs) => Finish([], rs)
    else Finish([Failed(UnhandledMessage(action))], [])
  }

  /** The events of `finishWithResults`: the comment, if one is posted, then
      the store of the configuration holding the final log. */
  function FinishEvents(ex: Execution, results: seq<Result>, image: Option<string>, commentThrows: bool,
                        hotfixBranch: Option<string>): seq<Event> {
    (match PublishResume.Posted(ex, results, image, commentThrows)
     case Some(c) => [Commented(c)]
     case None => [])
    + [Stored(hotfixBranch, PublishResume.LogAfter(ex, results, commentThrows))]
  }

  /** `finishWithResults`: assign the results, publish them, then store. */
  method FinishWithResults(ex: Execution, results: seq<Result>, image: Option<string>, commentThrows: bool)
    returns (events: seq<Event>)
    modifies ex
    ensures events == FinishEvents(ex, results, image, commentThrows, old(ex.configHotfixBranch))
    ensures ex.configResults == PublishResume.LogAfter(ex, results, commentThrows)
    ensures ex.hotfixVersion == old(ex.hotfixVersion) && ex.hotfixBranch == old(ex.hotfixBranch)
    ensures ex.configHotfixBranch == old(ex.configHotfixBranch)
  {
    ex.configResults := results;
    var posted := PublishResume.Invoke(ex, image, commentThrows);
    events := if posted.Some? then [Commented(posted.value)] else [];
    events := events + [Stored(ex.configHotfixBranch, ex.configResults)];
  }

  /** `run` from the set-up execution on. */
  method Run(ex: Execution, action: string, cleanup: Outcome<seq<Result>>,
             issueLink: Outcome<seq<Result>>, pullRequestLink: Outcome<seq<Result>>,
             image: Option<string>, commentThrows: bool)
    returns (events: seq<Event>)
    modifies ex
    ensures Dispatch(ex, action, cleanup, issueLink, pullRequestLink).Stop? ==>
              && events == Dispatch(ex, action, cleanup, issueLink, pullRequestLink).events
              && ex.configResults == old(ex.configResults)
    ensures Dispatch(ex, action, cleanup, issueLink, pullRequestLink).Finish? ==>
              var d := Dispatch(ex, action, cleanup, issueLink, pullRequestLink);
              && events == d.before + FinishEvents(ex, d.results, image, commentThrows, old(ex.configHotfixBranch))
              && ex.configResults == PublishResume.LogAfter(ex, d.results, commentThrows)
    ensures ex.hotfixVersion == old(ex.hotfixVersion) && ex.hotfixBranch == old(ex.hotfixBranch)
    ensures ex.configHotfixBranch == old(ex.configHotfixBranch)
  {
    if ex.number == -1 {
      return [Failed(SkipMessage(ex.number))];
    }
    var results: seq<Result> := [];
    if ex.mustCleanAll {
      if cleanup.Thrown? {
        return [Rejected(cleanup.message)];
      }
      results := results + cleanup.value;
      assert results == cleanup.value;
      events := FinishWithResults(ex, results, image, commentThrows);
      assert events == [] + events;
      return;
    }
    if !ex.mustRun {
      return [Failed(SkipMessage(ex.number))];
    }
    events := [];
    if ex.issueAction {
      if issueLink.Thrown? {
        return [Failed(issueLink.message)];
      }
      results := results + issueLink.value;
      assert results == issueLink.value;
    } else if ex.pullRequestAction {
      if pullRequestLink.Thrown? {
        return [Failed(pullRequestLink.message)];
      }
      results := results + pullRequestLink.value;
      assert results == pullRequestLink.value;
    } else {
      events := [Failed(UnhandledMessage(action))];
    }
    var finished := FinishWithResults(ex, results, image, commentThrows);
    events := events + finished;
  }

  // What the dispatch promises.

  /** Issue number -1 stops the run before any use case, comment or store. */
  lemma NoNumberStops(ex: Execution, action: string, cleanup: Outcome<seq<Result>>,
                      issueLink: Outcome<seq<Result>>, pullRequestLink: Outcome<seq<Result>>)
    requires ex.number == -1
    ensures Dispatch(ex, action, cleanup, issueLink, pullRequestLink) == Stop([Failed("Issue -1. Skipping.")])
  {
    assert DigitChar(1) == '1';
    assert NatToDecimal(1) == "1";
    assert IntToDecimal(-1) == "-1";
    assert SkipMessage(-1) == "Issue -1. Skipping.";
  }

  /** A cleanup run finishes with the cleanup's results whatever `mustRun`,
      the action and the link use cases would have given. */
  lemma CleanupTakesPrecedence(ex: Execution, action: string, results: seq<Result>,
                               issueLink: Outcome<seq<Result>>, pullRequestLink: Outcome<seq<Result>>)
    requires ex.number != -1 && ex.mustCleanAll
    ensures Dispatch(ex, action, Done(results), issueLink, pullRequestLink) == Finish([], results)
  {
  }

  /** Without `mustRun` (and no cleanup) nothing is published or stored. */
  lemma NotRunPublishesNothing(ex: Execution, action: string, cleanup: Outcome<seq<Result>>,
                               issueLink: Outcome<seq<Result>>, pullRequestLink: Outcome<seq<Result>>)
    requires ex.number != -1 && !ex.mustCleanAll && !ex.mustRun
    ensures Dispatch(ex, action, cleanup, issueLink, pullRequestLink) == Stop([Failed(SkipMessage(ex.number))])
  {
  }

  /** The issue use case is tried before the pull request one: on an issue
      action the pull request reply plays no part. */
  lemma IssueBeforePullRequest(ex: Execution, action: string, cleanup: Outcome<seq<Result>>,
                               issueLink: Outcome<seq<Result>>, pullRequestLink: Outcome<seq<Result>>,
                               otherLink: Outcome<seq<Result>>)
    requires ex.number != -1 && !ex.mustCleanAll && ex.mustRun && ex.issueAction
    ensures Dispatch(ex, action, cleanup, issueLink, otherLink) == Dispatch(ex, action, cleanup, issueLink, pullRequestLink)
  {
  }

  /** Neither action: the failure is reported and the (empty) results are
      still published and stored. */
  lemma UnhandledStillFinishes(ex: Execution, action: string, cleanup: Outcome<seq<Result>>,
                               issueLink: Outcome<seq<Result>>, pullRequestLink: Outcome<seq<Result>>)
    requires ex.number != -1 && !ex.mustCleanAll && ex.mustRun && !ex.issueAction && !ex.pullRequestAction
    ensures Dispatch(ex, action, cleanup, issueLink, pullRequestLink) == Finish([Failed(UnhandledMessage(action))], [])
  {
  }

  /** `finishWithResults` stores last, after the comment; the stored log is
      the one published plus at most the publishing failure; no comment is
      posted for a log without steps. */
  lemma StoreComesLast(ex: Execution, results: seq<Result>, image: Option<string>, commentThrows: bool,
                       hotfixBranch: Option<string>)
    ensures var events := FinishEvents(ex, results, image, commentThrows, hotfixBranch);
      && 1 <= |events| <= 2
      && events[|events| - 1].Stored?
      && events[|events| - 1].results[..|results|] == results
      && |events[|events| - 1].results| <= |results| + 1
      && (|events| == 2 ==> events[0].Commented?)
      && (!PublishResume.HasSteps(results) ==> |events| == 1)
  {
  }
}
