# git-board in Dafny

git-board is a GitHub Action that manages branches for issues and pull
requests. When an issue gets its launcher label, the action creates a
`feature/`, `bugfix/` or `hotfix/` branch named after the issue and links it
to the issue. It can update the issue title, link pull requests to projects,
and post a comment that sums up what it did. It also stores its own
configuration as a marked block inside the issue description.

This project models the decision and string logic of that action and proves
properties about it:

- **Branch naming and planning** (`BranchRepository`, `PrepareBranches`):
  - the slug made from an issue title, and the `type/n-slug` branch name;
  - the feature-then-bugfix switch search and the choice of base branch;
  - the commit a linked branch starts at;
  - the hotfix version bump, computed in place on an array;
  - the hotfix plan and the result log that the branch-preparation use
    case builds.
- **Configuration block** (`PullRequestRepository`): writing and reading the
  block between `<!-- GIT-BOARD-CONFIG-START` and `GIT-BOARD-CONFIG-END -->`,
  with the round trip between the two.
- **Result rendering and decisions** (`PublishResume`, `UpdateTitle`,
  `Index`):
  - the comment title and the numbered steps and reminders;
  - when the comment is suppressed, and which issue or pull request it goes
    to;
  - the title-update decision table;
  - the dispatch order of `run` and `finishWithResults`.
- **Input parsing** (`Index`, `ProjectRepository`, `ProjectDetails`): the
  comma-separated project URL list, the `/(orgs|users)/<name>/projects/<n>`
  URL pattern (a leftmost regular-expression match), and the `ProjectDetail`
  defaults.

Shared pieces:

- `Text` defines the JavaScript string operations once: `indexOf`, `split`,
  `join`, `replace` of a literal, `trim`, and decimal printing and parsing.
- `Results` is the result-log entry.
- `ExecutionState.Execution` is a class. Its settings are constants. Its
  mutable fields are the ones the use cases assign: `hotfix.version`,
  `hotfix.branch`, `currentConfiguration.hotfixBranch` and
  `currentConfiguration.results`.

Each git or GitHub call is replaced by an input: the value the call returned,
or, for a call that can throw, the fact that it threw. Where the code and the
project's description disagree, the model follows the code:

- `getLatestTag` returns `''` when there are no tags. The "no tag" failure
  therefore happens only when git fails, and the empty tag bumps to version
  `1`.
- `readConfig` does not check for the end marker. The text it reads stops at
  the first end marker or at a second start marker, whichever comes first.
- A commit-prefix script that throws or returns `undefined` makes
  `.toString()` throw. The use case then logs its failure entry. It does not
  fall back to an empty prefix.
- `createLinkedBranch` starts a branch without an explicit commit at the tip
  of `refs/heads/master`, whatever its base branch is.
- An issue title such as `Fix login bug! #2 dup` becomes the slug
  `fix-login-bug-2-dup`. The `2` is kept, because the `#` is dropped and the
  digit that follows it stays.
- Every rewrite of the configuration block adds another blank line before
  the block (`PullRequestRepository.WriteTwice`).

## Model

| member | source | states |
|---|---|---|
| BranchRepository.FormatBranchName | src/data/repository/branch_repository.ts:150-165 | for every title, the slug holds only `a-z`, `0-9` and `-`, never two dashes in a row, and no dash at either end |
| BranchRepository.KeepSlugInput | src/data/repository/branch_repository.ts:153 | the result holds only characters in `[a-z0-9 ]`, each taken from the input, and a string made only of those characters is unchanged |
| BranchRepository.StripIssuePrefix | src/data/repository/branch_repository.ts:155-158 | the result is the input, or the input without one leading `"<n>-"` |
| BranchRepository.CollapseDashes | src/data/repository/branch_repository.ts:160 | leaves no run of two dashes, keeps the first and last characters, and leaves a string without such runs unchanged |
| BranchRepository.TrimDashes | src/data/repository/branch_repository.ts:162 | a string without double dashes loses its dash at each end, and a string without end dashes is unchanged |
| BranchRepository.PlainTitleUnchanged | src/data/repository/branch_repository.ts:150-165 | a title of lowercase letters and digits is its own slug |
| BranchRepository.IssuePrefixStrippedOnce | src/data/repository/branch_repository.ts:155-160 | a title `"<n> rest"` loses the issue prefix exactly once, after spaces become dashes and before dashes collapse |
| BranchRepository.NewBranchHasSwitchPrefix | src/data/repository/branch_repository.ts:95-97 | the new branch name `type/n-slug` starts with the search prefix `type/n-` of its own type |
| BranchRepository.FindContaining | src/data/repository/branch_repository.ts:124 | gives the first listed name containing the prefix, or nothing exactly when no name contains it |
| BranchRepository.SwitchSearchOrder | src/data/repository/branch_repository.ts:101-131 | the feature prefix is tried first, and the bugfix prefix only when no branch holds the feature prefix |
| BranchRepository.SwitchSearchNone | src/data/repository/branch_repository.ts:120-136 | the search finds nothing exactly when no listed branch holds either prefix |
| BranchRepository.CreatedBranchIsFound | src/data/repository/branch_repository.ts:97-131 | a feature or bugfix branch created for an issue is found again by a later search for that issue |
| BranchRepository.ManageBranches | src/data/repository/branch_repository.ts:92-147 | the new name is `type/n-slug`. For a hotfix the base is the hotfix branch and no search runs. Otherwise the base is the branch found by the search, or the development branch, and the found branch is returned |
| BranchRepository.LinkedBranchMutation | src/data/repository/branch_repository.ts:200-225 | the linked name gets a leading `/`, and the commit is the given `oid` or else the master tip |
| BranchRepository.ManagedLinkStartsAtMaster | src/data/repository/branch_repository.ts:145-202 | a branch linked by `manageBranches` starts at the master tip, whatever its base branch |
| PullRequestRepository.UpdateConfig | src/data/repository/pull_request_repository.ts:100-129 | the write is refused exactly when one marker is present without the other, and every write ends with a blank line and then the new block |
| PullRequestRepository.ReadConfig | src/data/repository/pull_request_repository.ts:151-170 | a value is read exactly when the issue number is not -1 and the start marker occurs, and the value read holds no marker |
| PullRequestRepository.AppendedBlockMarkers | src/data/repository/pull_request_repository.ts:102-108 | after the first write, each marker occurs exactly once, at the block's own place |
| PullRequestRepository.ReadAppendedBlock | src/data/repository/pull_request_repository.ts:170 | reading a description that ends with a freshly written block gives `" \n" + payload + "\n"` |
| PullRequestRepository.FirstWriteRoundTrip | src/data/repository/pull_request_repository.ts:102-170 | a description with no markers gets `"\n\n" + block` appended, and reading it back gives the payload between its two line breaks |
| PullRequestRepository.BlockRemoved | src/data/repository/pull_request_repository.ts:126-127 | `replace` cuts the old block out at its own place |
| PullRequestRepository.RewriteReplacesBlock | src/data/repository/pull_request_repository.ts:125-129 | a description holding one well-formed block has that block cut out and the new one appended |
| PullRequestRepository.RewriteRoundTrip | src/data/repository/pull_request_repository.ts:125-170 | after a rewrite each marker occurs exactly once, and reading gives the new payload |
| PullRequestRepository.WriteTwice | src/data/repository/pull_request_repository.ts:106-129 | two writes leave one block, the second, with an extra blank line before it |
| PullRequestRepository.ReadIgnoresMissingEnd | src/data/repository/pull_request_repository.ts:166-170 | a start marker without an end marker still gives a value: the text after the first start marker, up to any second one |
| ProjectRepository.NameRun | src/data/repository/project_repository.ts:8 | `[^/]+` is greedy: the run stops only at a `/` or at the end |
| ProjectRepository.DigitRun | src/data/repository/project_repository.ts:8 | `\d+` is greedy: the run stops only at a non-digit or at the end |
| ProjectRepository.FirstMatch | src/data/repository/project_repository.ts:8 | gives the leftmost position where the pattern matches, and no position before it matches |
| ProjectRepository.Match | src/data/repository/project_repository.ts:8-14 | a match is well formed: `orgs` or `users`, a non-empty name without `/`, and digits. The matched segment occurs in the URL. No match means no position matches |
| ProjectRepository.MatchAtSound | src/data/repository/project_repository.ts:8 | what a position matches is the segment `/<type>/<name>/projects/<digits>` at that position, not followed by another digit |
| ProjectRepository.MatchAtComplete | src/data/repository/project_repository.ts:8 | every such segment at a position is what that position matches |
| ProjectRepository.ParseSegmentUrl | src/data/repository/project_repository.ts:8-31 | printing a well-formed match and parsing it again gives the match back. The number prints back to its digits when they are canonical |
| ProjectRepository.OwnerQueryField | src/data/repository/project_repository.ts:15 | the query field is `organization` or `user` |
| ProjectRepository.OwnerFieldMapping | src/data/repository/project_repository.ts:15 | `orgs` maps to `organization` and `users` maps to `user` |
| ProjectRepository.GetProjectDetail | src/data/repository/project_repository.ts:8-51 | "Invalid project URL" is thrown when there is no match. Otherwise an error of the query passes through unchanged, a null project throws "Project not found", and the result is a detail exactly when the query found a project. A detail holds the parsed owner (non-empty, without `/`), the mapped type and the decimal value of the digits |
| ProjectRepository.MissingProjectNotFound | src/data/repository/project_repository.ts:29-38 | when the query answers, "Project not found" is thrown exactly when it found no project, and any throw is that one |
| ProjectRepository.FoundProjectKeepsQueryData | src/data/repository/project_repository.ts:29-51 | a project the query returns gives a detail with the query's id and url |
| ProjectRepository.UnmatchedUrlRejected | src/data/repository/project_repository.ts:8-12 | a URL in which no position matches is rejected, whatever the query would return |
| ProjectDetails.MakeProjectDetail | src/data/model/project_detail.ts:8-14 | a missing id, type, owner or url becomes `''` and a missing number becomes -1. A present value, even `''` or 0, is kept |
| ProjectDetails.EmptyDataDefaults | src/data/model/project_detail.ts:9-13 | empty data gives `('', '', '', '', -1)` |
| ProjectDetails.TitleDropped | src/data/model/project_detail.ts:1-14 | the `title` key plays no part in the detail |
| ProjectDetails.DetailRoundTrip | src/data/model/project_detail.ts:1-14 | rebuilding a detail from its own fields gives it back. The object it is rebuilt from, with every field present and any title, is the reference `DataOf`, which the program itself does not have |
| PrepareBranches.IncrementHotfixVersion | src/data/usecase/steps/prepare_branches_use_case.ts:46-50 | the in-place array bump of the last part gives `NextVersion` |
| PrepareBranches.NextVersionParts | src/data/usecase/steps/prepare_branches_use_case.ts:46-50 | keeps the number of dot parts. Canonical parts other than the last are unchanged, other digit parts keep their value and the rest become `NaN`. The last part is one more, or `NaN` |
| PrepareBranches.EmptyTagVersion | src/data/usecase/steps/prepare_branches_use_case.ts:43-52 | the empty latest tag bumps to `1` |
| PrepareBranches.Invoke | src/data/usecase/steps/prepare_branches_use_case.ts:12-217 | the returned log is `Prepare`'s. The hotfix version and branch, and the stored hotfix branch, are set exactly when a hotfix was planned |
| PrepareBranches.InvokeHotfix | src/data/usecase/steps/prepare_branches_use_case.ts:44-199 | the hotfix path of the run logs `Prepare`'s entries and sets the hotfix fields from its plan. The result log is untouched |
| PrepareBranches.InvokeBranch | src/data/usecase/steps/prepare_branches_use_case.ts:115-199 | without an active hotfix the run logs `Prepare`'s entries |
| PrepareBranches.PlanHotfix | src/data/usecase/steps/prepare_branches_use_case.ts:44-100 | assigns the bumped version, `hotfixTree/version` as the hotfix branch, and the same branch in the configuration, then logs the hotfix entries |
| PrepareBranches.CreateHotfix | src/data/usecase/steps/prepare_branches_use_case.ts:65-100 | links only a branch that is not listed. A failed link logs nothing, and reading an empty or missing link result throws |
| PrepareBranches.RecordBranch | src/data/usecase/steps/prepare_branches_use_case.ts:117-199 | the entries pushed before any throw, followed by the failure when it throws, make up what follows `manageBranches` |
| PrepareBranches.Announce | src/data/usecase/steps/prepare_branches_use_case.ts:150-198 | the branch entries, with the hint added in place to both reminders |
| PrepareBranches.RenameMessages | src/data/usecase/steps/prepare_branches_use_case.ts:148-159 | the step and reminder are the rename texts exactly when the base contains `featureTree/` or `bugfixTree/` |
| PrepareBranches.EmptyTitleStopsEarly | src/data/usecase/steps/prepare_branches_use_case.ts:15-19 | an empty title returns an empty log before any call, and no hotfix field is set |
| PrepareBranches.HotfixBranchPlanned | src/data/usecase/steps/prepare_branches_use_case.ts:52-56 | with an active hotfix and a tag, the plan is the bumped version and `hotfixTree/version` |
| PrepareBranches.ListedHotfixNotCreated | src/data/usecase/steps/prepare_branches_use_case.ts:65-100 | a listed hotfix branch is not linked: exactly one "already exists" success follows the coffee reminder |
| PrepareBranches.ListedHotfixIgnoresLink | src/data/usecase/steps/prepare_branches_use_case.ts:65-100 | for a listed hotfix branch the link reply plays no part in the outcome |
| PrepareBranches.LinkFailureLogsNothing | src/data/usecase/steps/prepare_branches_use_case.ts:76-88 | a link that reports failure adds no entry, and the run goes on |
| PrepareBranches.NoTagStops | src/data/usecase/steps/prepare_branches_use_case.ts:101-113 | an active hotfix without a tag logs the coffee reminder and one failure, and ignores `manageBranches`, the link and the prefix |
| PrepareBranches.ThrowAppendsOneFailure | src/data/usecase/steps/prepare_branches_use_case.ts:117-215 | a throw from `manageBranches` on appends one failure after the entries already collected |
| PrepareBranches.EarlyThrowAfterCoffee | src/data/usecase/steps/prepare_branches_use_case.ts:37-215 | a throw in the branch listing or in reading the link result leaves the coffee reminder and one failure |
| PrepareBranches.SwitchedHasTree | src/data/repository/branch_repository.ts:120-131 | a branch found by the switch search contains `feature/` or `bugfix/` |
| PrepareBranches.SwitchedBaseRenames | src/data/usecase/steps/prepare_branches_use_case.ts:148-149 | with the default trees, a base found by the switch search is renamed |
| PrepareBranches.PlainBaseNotRenamed | src/data/usecase/steps/prepare_branches_use_case.ts:148-157 | a base without `/` is never renamed, and its step says the new branch was created from it |
| PrepareBranches.HintOnlyForPrefix | src/data/usecase/steps/prepare_branches_use_case.ts:161-186 | both reminders change exactly when the prefix is non-empty, and then end with it |
| UpdateTitle.ReturnedEntry | src/data/usecase/steps/update_title_use_case.ts:33-52 | always a success. It is executed exactly when a non-empty title came back, and then its one step names the old and new titles |
| UpdateTitle.Invoke | src/data/usecase/steps/update_title_use_case.ts:14-105 | at most one entry, and none without an issue action. With `mustRun`, emoji titles call `updateTitle` and no emoji gives success/not-executed with no call. Without `mustRun`, `cleanTitle` is called. A throw gives one failure |
| PublishResume.Title | src/data/usecase/publish_resume_use_case.ts:29-46 | issue titles go in the order cleanup, hotfix, bugfix, feature, else empty. A pull request gets the linking summary. Anything else is empty |
| PublishResume.NumberedList | src/data/usecase/publish_resume_use_case.ts:52-66 | the nested loops with their counter number all items `1..n`, in result order and then item order |
| PublishResume.NumberedAppend | src/data/usecase/publish_resume_use_case.ts:52-58 | numbering runs on across a split: the second part continues where the first stopped |
| PublishResume.StepsContinue | src/data/usecase/publish_resume_use_case.ts:52-58 | each result's steps are numbered right after the previous results' steps |
| PublishResume.FlattenAppend | src/data/usecase/publish_resume_use_case.ts:53-54 | the items of joined lists are the items of the first lists, then those of the rest |
| PublishResume.NumberedEmptyIff | src/data/usecase/publish_resume_use_case.ts:86-88 | the numbered text is empty exactly when there are no items |
| PublishResume.Gif | src/data/usecase/publish_resume_use_case.ts:48-50 | the image line is empty exactly when there is no picked image or it is empty |
| PublishResume.Footer | src/data/usecase/publish_resume_use_case.ts:68-74 | the "## Reminder" section is present exactly when some reminder is |
| PublishResume.Heading | src/data/usecase/publish_resume_use_case.ts:24-50 | the title chain and the image line are `Title` and `Gif`, with an image only when a title was chosen |
| PublishResume.Invoke | src/data/usecase/publish_resume_use_case.ts:17-121 | the posted comment is `Posted` and the new log is `LogAfter` of the old log. The hotfix fields are unchanged |
| PublishResume.PostingRules | src/data/usecase/publish_resume_use_case.ts:86-120 | a comment is posted exactly when some result holds a step, the run is an issue or pull request action, and the post does not fail. It goes to the issue number for an issue action and to the pull request number otherwise. The log only grows, by one failure entry exactly when the post fails |
| PublishResume.Compose | src/data/usecase/publish_resume_use_case.ts:24-88 | there is a comment text exactly when some result holds a step, and then it is the rendered comment |
| PublishResume.Render | src/data/usecase/publish_resume_use_case.ts:24-84 | the title, the image line, the numbered steps and the reminder section make up the rendered comment |
| PublishResume.NumberItems | src/data/usecase/publish_resume_use_case.ts:52-66 | the inner loop numbers one result's items on from the shared counter |
| Index.NonEmpty | src/index.ts:33 | keeps the non-empty pieces only, and keeps all pieces when none is empty |
| Index.NonEmptyAppend | src/index.ts:33 | filtering keeps the order |
| Index.ProjectUrls | src/index.ts:30-33 | every URL is non-empty, holds no comma, and has no white space at either end |
| Index.NoUrls | src/index.ts:30-33 | an empty input lists no URL |
| Index.ProjectUrlsRoundTrip | src/index.ts:30-33 | joining clean URLs with commas and parsing gives them back |
| Index.ProjectUrlsAtComma | src/index.ts:30-33 | the first comma splits the list: the trimmed first piece comes first, then the URLs of the rest |
| Index.CollectProjects | src/index.ts:35-39 | the loop yields `DetailsOf` the URLs: the details in order, or the first error |
| Index.LoadProjects | src/index.ts:29-39 | the projects of the input are `DetailsOf` its parsed URLs |
| Index.ThrownPrefixStays | src/index.ts:36-39 | once a URL throws, the loop's outcome is that error |
| Index.DetailsPerUrl | src/index.ts:35-39 | one detail per URL, in order, exactly when no URL fails |
| Index.FirstFailureReported | src/index.ts:35-39 | a failed load reports the error of the first URL that fails |
| Index.FinishWithResults | src/index.ts:130-134 | assigns the results, publishes, then stores. The stored log is the published one plus any publishing failure |
| Index.Run | src/index.ts:97-127 | the events and the final log are those of `Dispatch`, with `finishWithResults` run exactly when the dispatch finishes |
| Index.NoNumberStops | src/index.ts:97-100 | issue number -1 stops before any use case, comment or store, with "Issue -1. Skipping." |
| Index.CleanupTakesPrecedence | src/index.ts:104-108 | a cleanup run finishes with the cleanup's results, whatever `mustRun`, the action and the link use cases give |
| Index.NotRunPublishesNothing | src/index.ts:110-113 | without `mustRun` and without cleanup, nothing is published or stored |
| Index.IssueBeforePullRequest | src/index.ts:116-119 | on an issue action the pull request reply plays no part |
| Index.UnhandledStillFinishes | src/index.ts:120-124 | with neither action the failure is reported and the empty results are still published and stored |
| Index.StoreComesLast | src/index.ts:130-134 | the store is the last event, after any comment. The stored log extends the results by at most one entry. A log without steps gives no comment |

## Left out

- Git subprocesses (`fetchRemoteBranches`, `getLatestTag`, `getCommitTag`) are process I/O. The latest tag is an input (`PrepareBranches.Replies`). `fetchRemoteBranches` and `getCommitTag` catch their own errors and only mark the action as failed (branch_repository.ts:16-18, 65-67). They never throw, so they have no reply. The commit `getCommitTag` looks up goes only into the link request, whose result is an input.
- All GitHub REST and GraphQL traffic is network I/O. This covers branch listing, linking, issue updates, comments and the project query. Each result, or the fact that it threw, is an input. The project query is a function argument of `ProjectRepository.GetProjectDetail` (`ProjectRepository.ProjectQuery`). Its reply is the `projectV2` object, a null one, or the message of what it threw, such as a GraphQL error or the `TypeError` of a null owner object.
- ProjectRepository.GetProjectDetail: the project number is the exact value of its digits. `parseInt` rounds numbers above 2^53 to the nearest double, so for such numbers the query argument and `number` differ from the program's.
- ProjectRepository.GetProjectDetail: an "Invalid project URL" error does not by itself show that the URL had no match. A query error passes through with its own message, which the model does not constrain.
- `isLinked` is an HTTP fetch, so it is not modelled.
- The vm2 sandbox that evaluates the commit-prefix script is foreign code. Its result is an optional input string, and a missing value stands for a script that throws or returns `undefined`.
- `JSON.stringify` and `JSON.parse` are library serialisation. The configuration is an opaque payload that contains no marker.
- The random gif pick is random. It is an optional input to `PublishResume.Invoke`.
- Logging (`core.info`, `console.*`) is not modelled. `core.setFailed` is modelled only in `run`, where it is an `Index.Event`. `core.getInput` values are parameters.
- BranchRepository.Lowercase: lowercases ASCII letters only, because Unicode case mapping is not modelled.
- PrepareBranches.ToNumber: maps only digit runs (including the empty one) to numbers. JavaScript's `Number` also accepts surrounding white space, a sign, hex, octal and binary prefixes, exponents and `Infinity`, and it rounds values above 2^53. Those inputs become `NaN` in the model.
- `src/data/model/execution.ts` is not part of this model. `Execution.setup`, the label logic and the getters that derive `mustRun`, `mustCleanAll`, `hotfix.active` and the branch type are constructor parameters of `ExecutionState.Execution`.
- `src/data/model/result.ts` is not part of this model. A result keeps its id, flags, steps, reminders and branch payload, and records only whether an error was attached.
- The use cases that `run` dispatches to outside this model are `RemoveIssueBranchesUseCase`, `IssueLinkUseCase`, `PullRequestLinkUseCase` and `StoreConfigurationUseCase`. Their outcomes are inputs, and the store is the `Stored` event.
- Index.Run: starts from an execution that is already set up. A throw from `setup` is not modelled. The loaded projects are produced by `Index.LoadProjects` and not handed to the execution.
- Index.Run: the store use case is taken not to throw. A throw from it in the cleanup path would escape `run`, and in the main path it would be caught and reported.
- The arguments `prepare_branches_use_case.ts` passes to `createLinkedBranch` and `manageBranches` do not match the repository's signatures. Each file's logic is modelled on its own: the link result and the `manageBranches` results are inputs of `PrepareBranches`, and `BranchRepository.ManageBranches` is modelled from the repository's own code.
- BranchRepository.ManageBranches: gives the planned link request and the found branch. The linking call itself is not run, and a throw from the branch listing is not modelled.
- Awaiting and concurrency: every call is awaited in sequence, and the model is sequential.
