/**
 * `PublishResultUseCase.invoke`: render the result log as one comment (a
 * title chosen by the kind of run, the numbered steps, an optional image,
 * the numbered reminders) and post it on the issue or the pull request.
 * The random image pick and the comment request are inputs.
 */
module PublishResume {
  import opened Wrappers
  import opened Text
  import opened Results
  import opened ExecutionState

  const TaskId: string := "PublishResultUseCase"
  const FailureStep: string := "Tried to publish the resume, but there was a problem."

  const CleanupTitle: string := "\U{1F5D1}\U{FE0F} Cleanup Actions"
  const HotfixTitle: string := "\U{1F525}\U{1F41B} Hotfix Actions"
  const BugfixTitle: string := "\U{1F41B} Bugfix Actions"
  const FeatureTitle: string := "\U{1F6E0}\U{FE0F} Feature Actions"
  const PullRequestTitle: string := "\U{1F6E0}\U{FE0F} Pull Request Linking Summary"

  /** The comment title: on issues the first of cleanup, hotfix, bugfix,
      feature that applies (none: empty); on pull requests the linking
      summary; otherwise empty. */
  function Title(issueAction: bool, pullRequestAction: bool, mustCleanAll: bool,
                 hotfix: bool, bugfix: bool, feature: bool): (r: string)
    ensures issueAction && mustCleanAll ==> r == CleanupTitle
    ensures issueAction && !mustCleanAll && hotfix ==> r == HotfixTitle
    ensures issueAction && !mustCleanAll && !hotfix && bugfix ==> r == BugfixTitle
    ensures issueAction && !mustCleanAll && !hotfix && !bugfix && feature ==> r == FeatureTitle
    ensures issueAction && !mustCleanAll && !hotfix && !bugfix && !feature ==> r == ""
    ensures !issueAction && pullRequestAction ==> r == PullRequestTitle
    ensures !issueAction && !pullRequestAction ==> r == ""
  {
    if issueAction then
      if mustCleanAll then CleanupTitle
      else if hotfix then HotfixTitle
      else if bugfix then BugfixTitle
      else if feature then FeatureTitle
      else ""
    else if pullRequestAction then PullRequestTitle
    else ""
  }

  /** A numbered line: `${n}. ${item}\n`. */
  function Line(n: nat, item: string): (r: string)
    ensures |r| > 0 && r[|r| - 1] == '\n'
  {
    NatToDecimal(n) + ". " + item + "\n"
  }

  /** `items` as lines numbered `start`, `start + 1`, ... */
  function NumberedFrom(items: seq<string>, start: nat): string
    decreases |items|
  {
    if |items| == 0 then ""
    else NumberedFrom(items[..|items| - 1], start) + Line(start + |items| - 1, items[|items| - 1])
  }

  /** All items of all lists, list by list. */
  function Flatten(lists: seq<seq<string>>): seq<string>
    decreases |lists|
  {
    if |lists| == 0 then [] else Flatten(lists[..|lists| - 1]) + lists[|lists| - 1]
  }

  function StepLists(results: seq<Result>): seq<seq<string>> {
    seq(|results|, k requires 0 <= k < |results| => results[k].steps)
  }

  function ReminderLists(results: seq<Result>): seq<seq<string>> {
    seq(|results|, k requires 0 <= k < |results| => results[k].reminders)
  }

  /** The nested loops over the results and their items, with one counter
      across all of them: lines numbered 1, 2, ... in result order, then
      item order. */
  method NumberedList(lists: seq<seq<string>>) returns (text: string)
    ensures text == NumberedFrom(Flatten(lists), 1)
  {
    text := "";
    var index := 0;
    for i := 0 to |lists|
      invariant index == |Flatten(lists[..i])|
      invariant text == NumberedFrom(Flatten(lists[..i]), 1)
    {
      text, index := NumberItems(Flatten(lists[..i]), text, index, lists[i]);
      assert Flatten(lists[..i + 1]) == Flatten(lists[..i]) + lists[i] by {
        assert lists[..i + 1][..i] == lists[..i];
      }
    }
    assert lists[..|lists|] == lists;
  }

  /** The inner loop: the items of one result, numbered on from the
      shared counter `index`, after the lines `text` already holds for the
      items `done`. */
  method NumberItems(ghost done: seq<string>, text: string, index: nat, items: seq<string>)
    returns (text': string, index': nat)
    requires text == NumberedFrom(done, 1) && index == |done|
    ensures text' == NumberedFrom(done + items, 1) && index' == |done + items|
  {
    text', index' := text, index;
    assert done + items[..0] == done;
    for j := 0 to |items|
      invariant index' == |done| + j
      invariant text' == NumberedFrom(done + items[..j], 1)
    {
      assert NumberedFrom(done + items[..j + 1], 1) == text' + Line(index' + 1, items[j]) by {
        ExtendedPrefix(done, items, j);
        NumberedSnoc(done + items[..j], items[j], 1);
      }
      text' := text' + Line(index' + 1, items[j]);
      index' := index' + 1;
    }
    assert items[..|items|] == items;
  }

  /** One more item of `items` after `done`. */
  lemma ExtendedPrefix<T>(done: seq<T>, items: seq<T>, j: nat)
    requires j < |items|
    ensures done + items[..j + 1] == (done + items[..j]) + [items[j]]
  {
    assert items[..j + 1] == items[..j] + [items[j]];
  }

  lemma NumberedSnoc(items: seq<string>, x: string, start: nat)
    ensures NumberedFrom(items + [x], start) == NumberedFrom(items, start) + Line(start + |items|, x)
  {
    assert (items + [x])[..|items|] == items;
  }

  /** Numbering runs on across a split: the second part continues where the
      first stopped. */
  lemma {:induction false} NumberedAppend(a: seq<string>, b: seq<string>, start: nat)
    ensures NumberedFrom(a + b, start) == NumberedFrom(a, start) + NumberedFrom(b, start + |a|)
    decreases |b|
  {
    if |b| == 0 {
      assert a + b == a;
    } else {
      var b', x := b[..|b| - 1], b[|b| - 1];
      var line := Line(start + |a| + |b'|, x);
      var front, middle := NumberedFrom(a, start), NumberedFrom(b', start + |a|);
      assert NumberedFrom(a + b, start) == front + middle + line by {
        assert a + b == (a + b') + [x];
        NumberedSnoc(a + b', x, start);
        NumberedAppend(a, b', start);
      }
      assert NumberedFrom(b, start + |a|) == middle + line by {
        assert b == b' + [x];
        NumberedSnoc(b', x, start + |a|);
      }
      assert front + middle + line == front + (middle + line);
    }
  }

  /** The numbered text is empty exactly when there is nothing to number. */
  lemma NumberedEmptyIff(items: seq<string>, start: nat)
    ensures NumberedFrom(items, start) == "" <==> |items| == 0
  {
  }

  /** The items of a list of lists, taken together, are those of the first
      lists followed by those of the last ones. */
  lemma {:induction false} FlattenAppend(a: seq<seq<string>>, b: seq<seq<string>>)
    ensures Flatten(a + b) == Flatten(a) + Flatten(b)
    decreases |b|
  {
    if |b| == 0 {
      assert a + b == a;
    } else {
      var b', last := b[..|b| - 1], b[|b| - 1];
      assert Flatten(a + b) == Flatten(a + b') + last by {
        assert (a + b)[..|a + b| - 1] == a + b';
      }
      assert Flatten(a + b') == Flatten(a) + Flatten(b') by {
        FlattenAppend(a, b');
      }
      assert Flatten(b) == Flatten(b') + last;
    }
  }

  /** Each result's steps get the numbers right after the previous results'
      steps: numbering is consecutive over the whole log. */
  lemma StepsContinue(results: seq<Result>, r: Result)
    ensures NumberedFrom(Flatten(StepLists(results + [r])), 1)
            == NumberedFrom(Flatten(StepLists(results)), 1) + NumberedFrom(r.steps, 1 + |Flatten(StepLists(results))|)
  {
    assert StepLists(results + [r]) == StepLists(results) + [r.steps];
    assert (StepLists(results) + [r.steps])[..|results|] == StepLists(results);
    NumberedAppend(Flatten(StepLists(results)), r.steps, 1);
  }

  /** `![image](...)` when an image was picked and is not empty. */
  function Gif(image: Option<string>): (r: string)
    ensures r == "" <==> !(image.Some? && |image.value| > 0)
  {
    if image.Some? && |image.value| > 0 then "![image](" + image.value + ")" else ""
  }

  /** The reminder section: present exactly when some reminder is. */
  function Footer(reminders: string): (r: string)
    ensures |r| > 0 <==> |reminders| > 0
    ensures |reminders| > 0 ==> r == "\n## Reminder\n\n" + reminders + "\n"
  {
    if |reminders| > 0 then "\n## Reminder\n\n" + reminders + "\n" else ""
  }

  function CommentBody(title: string, content: string, gif: string, footer: string): string {
    "# " + title + ":\n" + content + "\n\n" + gif + "\n\n" + footer
    + "\n\nThank you for contributing! \U{1F64C}\n            "
  }

  /** A posted comment: the issue or pull request number and the text. */
  datatype Comment = Comment(target: int, body: string)

  /** The comment the use case renders for `results`. */
  function Rendered(ex: Execution, results: seq<Result>, image: Option<string>): string {
    var title := Title(ex.issueAction, ex.pullRequestAction, ex.mustCleanAll, ex.hotfixActive, ex.isBugfix, ex.isFeature);
    var picked := if title != "" then image else None;
    CommentBody(title, NumberedFrom(Flatten(StepLists(results)), 1), Gif(picked),
                Footer(NumberedFrom(Flatten(ReminderLists(results)), 1)))
  }

  /** The title chain and the image line of the comment. */
  method Heading(ex: Execution, image: Option<string>) returns (title: string, gif: string)
    ensures title == Title(ex.issueAction, ex.pullRequestAction, ex.mustCleanAll, ex.hotfixActive, ex.isBugfix, ex.isFeature)
    ensures gif == Gif(if title != "" then image else None)
  {
    title := "";
    var picked: Option<string> := None;
    if ex.issueAction {
      if ex.mustCleanAll {
        title := CleanupTitle;
        picked := image;
      } else if ex.hotfixActive {
        title := HotfixTitle;
        picked := image;
      } else if ex.isBugfix {
        title := BugfixTitle;
        picked := image;
      } else if ex.isFeature {
        title := FeatureTitle;
        picked := image;
      }
    } else if ex.pullRequestAction {
      title := PullRequestTitle;
      picked := image;
    }
    gif := "";
    if picked.Some? && |picked.value| > 0 {
      gif := "![image](" + picked.value + ")";
    }
  }

  /** Some result of the log holds a step. */
  predicate HasSteps(results: seq<Result>) {
    |Flatten(StepLists(results))| > 0
  }

  /** The comment the use case posts for `results`, if any. */
  function Posted(ex: Execution, results: seq<Result>, image: Option<string>, commentThrows: bool): Option<Comment> {
    if HasSteps(results) && (ex.issueAction || ex.pullRequestAction) && !commentThrows then
      Some(Comment(if ex.issueAction then ex.issueNumber else ex.pullRequestNumber, Rendered(ex, results, image)))
    else None
  }

  /** The result log after the use case: one failure more when posting fails. */
  function LogAfter(ex: Execution, results: seq<Result>, commentThrows: bool): seq<Result> {
    results + if HasSteps(results) && (ex.issueAction || ex.pullRequestAction) && commentThrows
              then [Failure(TaskId, FailureStep)] else []
  }

  /** A comment is posted exactly when some result holds a step, the run
      is an issue or pull request action and posting does not fail; it goes
      to the issue for an issue action and to the pull request otherwise. A
      failed post appends one failure entry, and nothing else is ever
      appended. */
  lemma PostingRules(ex: Execution, results: seq<Result>, image: Option<string>, commentThrows: bool)
    ensures var posted := Posted(ex, results, image, commentThrows);
      && (posted.Some? <==> HasSteps(results) && (ex.issueAction || ex.pullRequestAction) && !commentThrows)
      && (posted.Some? ==> posted.value.body == Rendered(ex, results, image))
      && (posted.Some? && ex.issueAction ==> posted.value.target == ex.issueNumber)
      && (posted.Some? && !ex.issueAction ==> posted.value.target == ex.pullRequestNumber)
    ensures var log := LogAfter(ex, results, commentThrows);
      && log[..|results|] == results
      && (|log| > |results| <==> HasSteps(results) && (ex.issueAction || ex.pullRequestAction) && commentThrows)
      && (|log| > |results| ==> log == results + [Failure(TaskId, FailureStep)])
  {
  }

  /** The use case. `image` is the random pick from the gif list of the
      chosen title's kind (none when the list is empty); `commentThrows`
      says whether posting the comment fails. Nothing is posted when no
      result holds a step, and a failed post appends a failure entry. */
  method Invoke(ex: Execution, image: Option<string>, commentThrows: bool) returns (posted: Option<Comment>)
    modifies ex
    ensures ex.hotfixVersion == old(ex.hotfixVersion) && ex.hotfixBranch == old(ex.hotfixBranch)
    ensures ex.configHotfixBranch == old(ex.configHotfixBranch)
    ensures posted == Posted(ex, old(ex.configResults), image, commentThrows)
    ensures ex.configResults == LogAfter(ex, old(ex.configResults), commentThrows)
  {
    posted := None;
    var body := Compose(ex, image);
    if body.None? {
      return;
    }
    if ex.issueAction || ex.pullRequestAction {
      if commentThrows {
        ex.configResults := ex.configResults + [Failure(TaskId, FailureStep)];
        return;
      }
      posted := Some(Comment(if ex.issueAction then ex.issueNumber else ex.pullRequestNumber, body.value));
    }
  }

  /** The comment text, or nothing when no result holds a step. */
  method Compose(ex: Execution, image: Option<string>) returns (body: Option<string>)
    ensures body.Some? <==> HasSteps(ex.configResults)
    ensures body.Some? ==> body.value == Rendered(ex, ex.configResults, image)
  {
    var content := NumberedList(StepLists(ex.configResults));
    NumberedEmptyIff(Flatten(StepLists(ex.configResults)), 1);
    if |content| == 0 {
      return None;
    }
    var text := Render(ex, image, content);
    return Some(text);
  }

  /** The comment text around the numbered steps `content`: title, image
      line, the reminders section and the closing line. */
  method Render(ex: Execution, image: Option<string>, content: string) returns (body: string)
    requires content == NumberedFrom(Flatten(StepLists(ex.configResults)), 1)
    ensures body == Rendered(ex, ex.configResults, image)
  {
    var title, gif := Heading(ex, image);
    var footer := NumberedList(ReminderLists(ex.configResults));
    if |footer| > 0 {
      footer := "\n## Reminder\n\n" + footer + "\n";
    }
    body := CommentBody(title, content, gif, footer);
  }
}
