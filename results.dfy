/**
 * The entries of the result log every use case appends to. The record
 * carries what the use cases in this model read back: whether the step
 * succeeded and ran, the numbered steps and reminders it contributes to the
 * published comment, and, for branch creation, the branch pair it produced.
 */
module Results {
  import opened Wrappers

  /** The base/new branch pair a branch-creation step reports. */
  datatype BranchPayload = BranchPayload(
    baseBranchName: string,
    baseBranchUrl: string,
    newBranchName: string,
    newBranchUrl: string)

  datatype Result = Result(
    id: string,
    success: bool,
    executed: bool,
    steps: seq<string>,
    reminders: seq<string>,
    payload: Option<BranchPayload>,
    hasError: bool)

  /** `new Result({id, success, executed, steps, reminders})`: no payload and
      no error attached. */
  function Entry(id: string, success: bool, executed: bool, steps: seq<string>, reminders: seq<string>): (r: Result)
    ensures r.id == id && r.success == success && r.executed == executed
    ensures r.steps == steps && r.reminders == reminders
    ensures r.payload.None? && !r.hasError
  {
    Result(id, success, executed, steps, reminders, None, false)
  }

  /** The entry a `catch` block appends: failed, executed, one step, the
      caught error attached. */
  function Failure(id: string, step: string): (r: Result)
    ensures !r.success && r.executed && r.steps == [step] && r.reminders == [] && r.hasError
  {
    Result(id, false, true, [step], [], None, true)
  }
}
