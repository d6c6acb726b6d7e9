/**
 * `UpdateTitleUseCase.invoke`: on issue events, ask the issue repository to
 * rewrite the title (with emoji) or to clean it, and log what happened. The
 * repository call is not modelled; its answer is an input.
 */
module UpdateTitle {
  import opened Wrappers
  import opened Results
  import opened ExecutionState

  const TaskId: string := "UpdateTitleUseCase"
  const FailureStep: string := "Tried to update issue's title, but there was a problem."

  /** Which repository call the use case makes. */
  datatype TitleCall = NoCall | UpdateTitleCall | CleanTitleCall

  /** What the awaited call gives: the new title (`undefined` when nothing
      changed), or a thrown error. */
  datatype TitleReply = Returned(title: Option<string>) | Threw

  function UpdatedStep(oldTitle: string, newTitle: string): string {
    "The issue's title was updated from `" + oldTitle + "` to `" + newTitle + "`."
  }

  /** `if (title)`: a returned title counts only when present and non-empty. */
  predicate Truthy(title: Option<string>) {
    title.Some? && |title.value| > 0
  }

  /** The entry logged after a call that returned `title`: always a success,
      executed exactly when a title came back, with the one step that names
      the old and new titles. */
  function ReturnedEntry(oldTitle: string, title: Option<string>): (r: Result)
    ensures r.id == TaskId && r.success && r.reminders == [] && r.payload.None? && !r.hasError
    ensures r.executed <==> Truthy(title)
    ensures r.executed ==> r.steps == [UpdatedStep(oldTitle, title.value)]
    ensures !r.executed ==> r.steps == []
  {
    if Truthy(title) then Entry(TaskId, true, true, [UpdatedStep(oldTitle, title.value)], [])
    else Entry(TaskId, true, false, [], [])
  }

  /** The use case, with `reply` the answer of whichever call it makes. */
  method Invoke(ex: Execution, reply: TitleReply) returns (result: seq<Result>, call: TitleCall)
    ensures |result| <= 1
    ensures !ex.issueAction ==> call == NoCall && result == []
    ensures ex.issueAction ==> |result| == 1
    ensures ex.issueAction && ex.mustRun && ex.emojiLabeledTitle ==> call == UpdateTitleCall
    ensures ex.issueAction && ex.mustRun && !ex.emojiLabeledTitle
            ==> call == NoCall && result == [Entry(TaskId, true, false, [], [])]
    ensures ex.issueAction && !ex.mustRun ==> call == CleanTitleCall
    ensures call != NoCall && reply.Returned? ==> result == [ReturnedEntry(ex.issueTitle, reply.title)]
    ensures call != NoCall && reply.Threw? ==> result == [Failure(TaskId, FailureStep)]
  {
    result := [];
    call := NoCall;
    if ex.issueAction {
      if ex.mustRun {
        if ex.emojiLabeledTitle {
          call := UpdateTitleCall;
          if reply.Threw? {
            result := result + [Failure(TaskId, FailureStep)];
            return;
          }
          result := result + [ReturnedEntry(ex.issueTitle, reply.title)];
        } else {
          result := result + [Entry(TaskId, true, false, [], [])];
        }
      } else {
        call := CleanTitleCall;
        if reply.Threw? {
          result := result + [Failure(TaskId, FailureStep)];
          return;
        }
        result := result + [ReturnedEntry(ex.issueTitle, reply.title)];
      }
    }
  }
}
