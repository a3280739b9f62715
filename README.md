# Evaluation bookkeeping of the moatless tree-search benchmark

This project models the core of `moatless/benchmark/evaluation.py` in Dafny: the
`Evaluation` object that runs a tree-search agent over SWE-bench instances and
keeps score. It covers:

- the status journal (`update_status`) and the event log (`log_event`), two
  maps keyed by instance id that the object updates in place;
- the prediction log `all_preds.jsonl` (`save_prediction`);
- one call of `evaluate_instance`:
  - loading `eval_result.json`;
  - choosing the search tree (reuse a finished persisted tree, resume an
    unfinished one, or build a new one);
  - the search status (`completed` or `error`);
  - the finished-node validation loop, with its per-call patch cache and the
    best-node bookkeeping (`selected_node`, `resolved`, the prediction);
  - the exception handler and the `finally` clause;
- the batch driver `_run_evaluation` and its error counter, and the instance
  selection of `run_evaluation` (a stable sort by resolver count, then three
  filters);
- the helpers `get_actions` and `create_evaluation_name`.

Files and modules:

| file | module | what it holds |
|---|---|---|
| `wrappers.dfy` | `Wrappers` | `Option` |
| `journal.dfy` | `Journal` | status and event records, one update of each journal, replay of many updates |
| `node_validation.dfy` | `NodeValidation` | `Step` and `Run`: the finished-node loop as a specification, with its properties |
| `search_outcome.dfy` | `SearchOutcome` | tree choice, search status, events of the search stage |
| `lifecycle.dfy` | `InstanceLifecycle` | `Evaluate`: everything one `evaluate_instance` call does, as a value |
| `batch.dfy` | `Batch` | task outcomes and the error count |
| `instances.dfy` | `Instances` | sorting and filtering of the instance list |
| `naming.dfy` | `Naming` | `create_evaluation_name` |
| `trajectory.dfy` | `Trajectory` | `get_actions` |
| `evaluation.dfy` | `Orchestrator` | the class `Evaluation`, whose methods perform the effects, and the batch specification |

Modelling choices:

- **Journals and files.** The journals, the prediction log and the two
  per-instance files (`eval_result.json`, `trajectory.json`) are fields of the
  class `Orchestrator.Evaluation`. A file is a map from instance id to its
  content, so a write is a map update.
- **State changes.** Every method states its new state as a function of the
  old one. `EvaluateInstance` is tied to `InstanceLifecycle.Evaluate`, and
  `RunEvaluation` to `Orchestrator.EvaluateAll`. The lemmas are stated about
  those functions.
- **Collaborators** are function values passed in by the caller:
  - `create_workspace` (no workspace means it raised);
  - building a new search tree;
  - `run_search` (the tree it leaves and, if it raised, the error text);
  - the testbed runtime's `evaluate`;
  - `create_sha256_hash`.
- **Timestamps** are opaque strings supplied by the caller.

Where the code's behaviour is easy to misread, the model follows the code:

- `run_search` is called on a reused, finished tree too (lines 216-220 and
  252-256). Reuse only skips building the tree and the two workspace events.
- An `eval_result.json` that cannot be parsed raises before the `try`
  (lines 188-191). Nothing is journaled and the batch counts the task as an
  error.
- The batch counts only tasks that raise (lines 404-420). A task that returns
  `None` after a failed workspace creation is not counted; that branch is
  commented out in the source.
- A failed validation is not cached (lines 300-304). A later node with the same
  patch is sent to the validator again.
- An empty patch gets no result, but when its node is the best node it is
  still submitted as the prediction and selected (lines 289, 314-316).
- After a successful re-run, an `error` text left in `eval_result.json` by an
  earlier failed run stays there. Only `status` is rewritten (line 259).

## Model

| member | source | states |
|---|---|---|
| Journal.WithStatus | moatless/benchmark/evaluation.py:83-93 | the entry gets `created` only if it had none (otherwise `created` is kept); `status` and `last_updated` are overwritten; exactly the one key is added; every other entry is unchanged |
| Journal.WithEvent | moatless/benchmark/evaluation.py:95-100 | the instance's list grows by exactly one record at the end (a missing list reads as empty); the earlier records and every other list are unchanged |
| Journal.ReplayStatusKeys | moatless/benchmark/evaluation.py:83-93 | after any sequence of updates the journal has exactly one entry per instance ever updated |
| Journal.ReplayStatusOthersUnchanged | moatless/benchmark/evaluation.py:83-93 | updates for other ids leave an entry, or its absence, untouched |
| Journal.CreatedNeverChanges | moatless/benchmark/evaluation.py:85-88 | once an entry exists, no later update changes its `created` |
| Journal.CreatedFirstStatusLast | moatless/benchmark/evaluation.py:83-93 | `created` is the time of the first update of an instance; `status` and `last_updated` come from its last update |
| Journal.ReplayAppend | moatless/benchmark/evaluation.py:83-93 | replaying a concatenation of updates is replaying the parts in turn |
| Journal.EventsAppendOnly | moatless/benchmark/evaluation.py:95-100 | after any sequence of entries, each instance's list is its old list followed by exactly its new events, in order |
| NodeValidation.Bookkeep | moatless/benchmark/evaluation.py:314-331 | only the best node submits its patch and becomes `selected_node`; `resolved` is taken from its result only if it has one; node results, cache and status are untouched; the file counts as written |
| NodeValidation.Step | moatless/benchmark/evaluation.py:277-331 | a node with a stored result is skipped with no change; stored results are never overwritten; a cache hit stores exactly the cached result without a validator call; the validator is called at most once, only on a cache miss of a non-empty patch; a success is stored and cached; a failure changes nothing but the call record; an empty patch gets no result; only the best node changes submissions, selection and resolution |
| NodeValidation.Run | moatless/benchmark/evaluation.py:268-331 | over the whole loop: no stored result is overwritten; new results belong to nodes of the loop; at most one validator call per node; status and error untouched |
| NodeValidation.AlreadyValidatedNodesSkipped | moatless/benchmark/evaluation.py:283-284 | when every node already has a result, the loop changes nothing and calls no validator |
| NodeValidation.TrackCallCached | moatless/benchmark/evaluation.py:300-309 | after a validator call on a cache miss, every successful call's hash is in the cache |
| NodeValidation.TrackCallWitnessed | moatless/benchmark/evaluation.py:300-309 | after such a call, every cached result is the validator's result for some call with that hash |
| NodeValidation.TrackCallNoRevalidation | moatless/benchmark/evaluation.py:290-309 | after such a call, no hash that validated successfully has been validated again |
| NodeValidation.StepTracksCalls | moatless/benchmark/evaluation.py:287-309 | one iteration preserves the cache/call invariant |
| NodeValidation.RunTracksCalls | moatless/benchmark/evaluation.py:268-331 | the whole loop preserves the cache/call invariant |
| NodeValidation.ValidatedOncePerHash | moatless/benchmark/evaluation.py:269-309 | within one call the validator is asked at most once per hash that validated successfully, and each cached result is the validator's result for a patch with that hash |
| NodeValidation.CachedStepMatchesDirect | moatless/benchmark/evaluation.py:287-309 | when the hash separates the loop's patches, one cached iteration stores what validating without a cache would, and keeps the cache faithful to the validator |
| NodeValidation.CachedRunMatchesDirectPrefix | moatless/benchmark/evaluation.py:268-309 | the same for every prefix of the loop |
| NodeValidation.CachedRunMatchesDirect | moatless/benchmark/evaluation.py:268-309 | the dedup cache is invisible in the results: the loop stores exactly the results of validating every new node with a non-empty patch |
| NodeValidation.RunSettles | moatless/benchmark/evaluation.py:268-331 | after the loop, every node has a result, or has an empty patch (and is selected if it is the best node), or has a patch that fails validation |
| NodeValidation.SettledRunKeepsResult | moatless/benchmark/evaluation.py:283-304 | over settled nodes with an empty cache the loop leaves the result unchanged, only re-asks about failing patches, keeps earlier submissions and submits nothing but empty patches |
| NodeValidation.ValidationIdempotent | moatless/benchmark/evaluation.py:268-331 | a second pass over the same nodes, starting from the first pass's result, leaves the evaluation result unchanged and validates only failing patches; the only thing it can submit again is an empty-patch best node |
| NodeValidation.SubmissionsComeFromBestNode | moatless/benchmark/evaluation.py:314-315 | the loop only appends submissions, and each is the patch of a node with the best node's id |
| NodeValidation.BestNodeBookkeeping | moatless/benchmark/evaluation.py:314-321 | a submission selects the best node; a best node that gets its result in this call is submitted and selected, and sets `resolved` to that result's flag; a best node with an earlier result is not submitted again and leaves selection and resolution as they were; selection or resolution change only with a submission |
| NodeValidation.StepSubmitsAtMostOnce | moatless/benchmark/evaluation.py:314-315 | one iteration appends at most one prediction, and none for a node that is not the best node |
| NodeValidation.AtMostOneSubmission | moatless/benchmark/evaluation.py:276-331 | with distinct node ids the loop appends at most one prediction, and none when no node is the best node |
| NodeValidation.BestNodeSubmittedOnce | moatless/benchmark/evaluation.py:276-331 | with distinct node ids, a best node that gets its result in this call is submitted exactly once |
| SearchOutcome.ResolveTree | moatless/benchmark/evaluation.py:216-249 | a finished persisted tree is reused, an unfinished one is resumed, and a new tree is built only when none is persisted |
| SearchOutcome.RecordSearch | moatless/benchmark/evaluation.py:252-262 | status is `completed` exactly when `run_search` returned; when it raised, the error text is recorded and there is no best node; node results, selection and resolution are untouched |
| SearchOutcome.TreeEvents | moatless/benchmark/evaluation.py:222-225 | the workspace events are logged exactly when the tree is not reused |
| SearchOutcome.RunEvents | moatless/benchmark/evaluation.py:254-258 | the search start is logged first; its completion is logged exactly when `run_search` returned |
| SearchOutcome.SearchEvents | moatless/benchmark/evaluation.py:222-258 | no workspace events for a reused tree; the search start is always logged; completion exactly when the search returned |
| InstanceLifecycle.ValidationLoop | moatless/benchmark/evaluation.py:277-331 | the loop runs only with a testbed and a runtime (otherwise the result is unchanged and nothing is submitted); it never overwrites a stored result and keeps status and error |
| InstanceLifecycle.InWorkspace | moatless/benchmark/evaluation.py:216-336 | once a workspace exists the call returns the result it writes; one final status, `completed` exactly when the search on the chosen tree returned; the tree written is the one the search left; `evaluation_completed` is logged last |
| InstanceLifecycle.Guarded | moatless/benchmark/evaluation.py:207-346 | one final status and a write of `eval_result.json` always; the result is `None` exactly when the workspace cannot be created, and then the loaded result is written back, no tree is written and nothing is submitted |
| InstanceLifecycle.Evaluate | moatless/benchmark/evaluation.py:175-359 | the call raises exactly when `eval_result.json` cannot be read; otherwise `started` and one final status are journaled, `evaluate_instance_initiated` is logged first and `eval_result.json` is written |
| InstanceLifecycle.AtMostOnePrediction | moatless/benchmark/evaluation.py:276-331 | one evaluation submits at most one prediction when the finished nodes of the searched tree have distinct ids |
| InstanceLifecycle.CorruptResultRaises | moatless/benchmark/evaluation.py:188-191 | the call raises exactly when `eval_result.json` cannot be read, and then journals, writes and submits nothing |
| InstanceLifecycle.StatusReflectsSearch | moatless/benchmark/evaluation.py:199-345 | a readable instance is journaled `started` and then one final status. Without a workspace: `error`, `evaluation_error` logged last, result `None`, and the loaded result written back. With one: `completed` exactly when `run_search` returned; `evaluation_completed` logged last; the returned result is the one written; the tree written is the one the search left; a failed search records its error text and submits nothing |
| InstanceLifecycle.BestNodeNoneSubmitsNothing | moatless/benchmark/evaluation.py:252-315 | without a best node the loop submits no prediction |
| InstanceLifecycle.FinishedTreeReused | moatless/benchmark/evaluation.py:216-222 | with a finished persisted tree the outcome does not depend on how a new tree would be built, no workspace events are logged, and the tree written is what the search left of the persisted one |
| InstanceLifecycle.ResumeIsIdempotent | moatless/benchmark/evaluation.py:175-336 | evaluating again from the files a completed run left, with a search that leaves a finished tree as it is, reproduces the same result, tree and statuses |
| Batch.CountRaised | moatless/benchmark/evaluation.py:404-420 | the count is at most the number of tasks; it is 0 exactly when no task raised, and equals the number of tasks exactly when all raised |
| Batch.CountRaisedIsOrderFree | moatless/benchmark/evaluation.py:400-420 | the error count is the number of raised outcomes in the multiset, so the completion order does not matter |
| Batch.CountRaisedAppend | moatless/benchmark/evaluation.py:404-420 | the counts of two batches of outcomes add up |
| Batch.CountErrors | moatless/benchmark/evaluation.py:383-420 | the drain loop leaves the counter at the number of raised outcomes |
| Instances.InsertByCount | moatless/benchmark/evaluation.py:123 | insertion adds exactly one element and loses none (multiset) |
| Instances.InsertBelow | moatless/benchmark/evaluation.py:123 | inserting an element below a bound into a list below it keeps the list below it |
| Instances.InsertKeepsSorted | moatless/benchmark/evaluation.py:123 | insertion keeps the list sorted by resolver count, most first |
| Instances.SortByResolvedCount | moatless/benchmark/evaluation.py:123 | the sort is a permutation and sorted by resolver count, most first |
| Instances.InsertWithCount | moatless/benchmark/evaluation.py:123 | insertion puts the element before all others with its resolver count |
| Instances.SortIsStable | moatless/benchmark/evaluation.py:123 | instances with equal resolver counts keep their relative order, as Python's stable `sorted` does |
| Instances.SubsequenceTransitive | moatless/benchmark/evaluation.py:127-157 | a subsequence of a subsequence is a subsequence, so chained filters keep the input order |
| Instances.SubsequenceMembers | moatless/benchmark/evaluation.py:127-157 | a subsequence holds only elements of the original |
| Instances.SubsequenceOfSorted | moatless/benchmark/evaluation.py:123-157 | filtering a sorted list leaves it sorted |
| Instances.Keep | moatless/benchmark/evaluation.py:127-157 | a list comprehension with a condition keeps exactly the elements that satisfy it, each as many times as it occurs in the input, in order, as a subsequence |
| Instances.FilterByIdsSpec | moatless/benchmark/evaluation.py:127-135 | the id filter keeps exactly the instances whose id is listed (all of them when the list is empty), each as often as in the input, in order |
| Instances.FilterByResolvedBySpec | moatless/benchmark/evaluation.py:137-150 | the threshold filter keeps exactly the instances with enough resolvers, or with a positive rate when the threshold is 1; a missing or zero threshold keeps all; kept instances keep their multiplicity and order |
| Instances.FilterByReposSpec | moatless/benchmark/evaluation.py:152-157 | the repository filter keeps exactly the instances whose repository is not excluded, each as often as in the input, in order |
| Instances.SelectInstancesSpec | moatless/benchmark/evaluation.py:123-164 | the selection keeps exactly the wanted instances, each as often as in the input list, as an order-preserving subsequence of the sorted list, and stays sorted |
| Instances.SubsequenceReflexive | moatless/benchmark/evaluation.py:127-157 | a filter that is not applied returns its input, which is a subsequence of itself |
| Naming.LastSegment | moatless/benchmark/evaluation.py:478 | the result has no `/`, is a suffix of the model name, and is the whole name or follows a `/` |
| Naming.NatText | moatless/benchmark/evaluation.py:481 | the decimal text of a number is non-empty and made of digits |
| Naming.NatTextRoundTrip | moatless/benchmark/evaluation.py:481 | the digits read back as the number |
| Naming.IntTextRoundTrip | moatless/benchmark/evaluation.py:481 | the expansion limit written into the name reads back exactly, negative numbers included |
| Naming.MaxExpansionsText | moatless/benchmark/evaluation.py:480-481 | the `_max_exp` part is present exactly when the limit is truthy (given and not 0) |
| Naming.EvaluationNameIgnoresProvider | moatless/benchmark/evaluation.py:478 | only the last `/`-separated segment of the model reaches the name, so the same model under different provider prefixes gets the same name |
| Naming.EvaluationNameShape | moatless/benchmark/evaluation.py:482-483 | each further keyword argument appends exactly `_<key>_<value>` |
| Naming.CreateEvaluationName | moatless/benchmark/evaluation.py:468-484 | the method builds the name `EvaluationName` describes |
| Naming.AppendKwargs | moatless/benchmark/evaluation.py:482-483 | the loop appends one `_<key>_<value>` per argument, in order |
| Trajectory.ActionNamesSpec | moatless/benchmark/evaluation.py:460-465 | flattening yields one name per action, and a name occurs exactly when some transition has an action with that name |
| Trajectory.GetActions | moatless/benchmark/evaluation.py:460-465 | the nested loops produce the flattened action names, transition by transition and action by action |
| Orchestrator.LoggedIsReplay | moatless/benchmark/evaluation.py:95-100 | logging several events for one instance in one go is the same as that many `log_event` calls |
| Orchestrator.EvaluateAll | moatless/benchmark/evaluation.py:397-420 | the batch has one outcome per instance |
| Orchestrator.EvaluateAllLeavesOthers | moatless/benchmark/evaluation.py:175-359 | evaluating other instances leaves an instance's `eval_result.json` and `trajectory.json` as they were |
| Orchestrator.ErrorsAreUnreadableResults | moatless/benchmark/evaluation.py:383-420 | the error count is the number of instances whose `eval_result.json` could not be read when the batch started (an id listed twice counts twice) |
| Orchestrator.CorruptFilesStayCorrupt | moatless/benchmark/evaluation.py:188-346 | a batch never makes an `eval_result.json` unreadable and never repairs an unreadable one |
| Orchestrator.EvaluatedAppendsOwnPredictions | moatless/benchmark/evaluation.py:361-370 | one evaluation only appends prediction lines, each naming the evaluation and that instance; when the finished nodes of its search tree have distinct ids it appends at most one line |
| Orchestrator.PredictionsBelongToBatch | moatless/benchmark/evaluation.py:361-370 | a batch only appends prediction lines, each naming the evaluation and one of the batch's instances |
| Orchestrator.Evaluation.constructor | moatless/benchmark/evaluation.py:35-81 | the journals start empty; the name, testbed flag, prediction log and files are as given |
| Orchestrator.Evaluation.UpdateStatus | moatless/benchmark/evaluation.py:83-93 | the journal becomes `WithStatus` of the old one; nothing else changes |
| Orchestrator.Evaluation.LogEvent | moatless/benchmark/evaluation.py:95-100 | the event log becomes `WithEvent` of the old one; nothing else changes |
| Orchestrator.Evaluation.SavePrediction | moatless/benchmark/evaluation.py:361-370 | exactly one line `{evaluation_name, instance_id, patch}` is appended; nothing else changes |
| Orchestrator.Evaluation.RunEvaluation | moatless/benchmark/evaluation.py:382-423 | truncates the prediction log, performs `EvaluateAll` over the instances in submission order, returns the number of raised tasks (the count `_run_evaluation` logs at line 422; the source itself returns nothing), and finally journals `all` as `evaluation_completed` |
| Orchestrator.Evaluation.RunEvaluationFor | moatless/benchmark/evaluation.py:110-164 | runs the batch on exactly the selected instances, in the selected order |
| Orchestrator.Evaluation.SelectAndWrite | moatless/benchmark/evaluation.py:314-331 | performs `Bookkeep`: the best node's prediction is appended, the selection is recorded, and `eval_result.json` is rewritten with the current result |
| Orchestrator.Evaluation.ProcessNode | moatless/benchmark/evaluation.py:277-331 | performs one `Step` in place: the result, the cache, the prediction log and `eval_result.json` match it |
| Orchestrator.Evaluation.ValidateFinishedNodes | moatless/benchmark/evaluation.py:268-331 | the loop performs `Run` from an empty cache: the final result, the predictions appended, and `eval_result.json` (rewritten only if some node was not skipped) match it |
| Orchestrator.Evaluation.EvaluateInstance | moatless/benchmark/evaluation.py:175-359 | performs exactly `Evaluate` on the instance's own files: the outcome, the statuses and events journaled in order, the predictions appended, and the `eval_result.json` and `trajectory.json` left behind |
| Orchestrator.Evaluation.EvaluateGuarded | moatless/benchmark/evaluation.py:207-346 | performs `Guarded`: a failed workspace creation logs `evaluation_error`, journals `error`, writes the loaded result back and returns `None` |
| Orchestrator.Evaluation.EvaluateInWorkspace | moatless/benchmark/evaluation.py:216-346 | performs `InWorkspace` once a workspace exists |
| Orchestrator.Evaluation.Finish | moatless/benchmark/evaluation.py:267-346 | validates the finished nodes only with a testbed runtime, logs `evaluation_completed`, journals the search status and writes `eval_result.json` |
| Orchestrator.Evaluation.ChooseTree | moatless/benchmark/evaluation.py:216-249 | the tree is the one `ResolveTree` chooses, and the workspace events are logged exactly when it is not reused |
| Orchestrator.Evaluation.RunSearch | moatless/benchmark/evaluation.py:252-266 | records the search as `RecordSearch` says, persists the tree the search left, and logs the search events |

## Left out

- File and JSON I/O is not modelled.
  - `_save_statuses` and `_save_events` write the whole map after each update. The model keeps the map, which is the file's content.
  - The prediction file is the sequence `predictions`. Truncating it at the start of a batch is an assignment of the empty sequence.
  - `eval_result.json` and `trajectory.json` are maps from instance id to content.
  - The type of a node id is defined by the search tree, which is not part of this model. The model represents ids as `int` and reads `node_results` back with the keys it was written with.
  - `os.makedirs`, including the odd `os.makedirs(trajectory_path)`, is left out.
  - So are `read_trajectory`, `_to_csv_report`, `_save_json_report` and `_create_stats` (floating-point averages and percentages).
- Orchestrator.Evaluation.RunEvaluation: runs the tasks one after the other in submission order. It does not model the thread pool, `file_lock`, or the order in which `as_completed` yields results. Each journal update is atomic under the lock. `Batch.CountRaisedIsOrderFree` shows the error count does not depend on completion order. The interleaving of different instances' journal entries is not modelled.
- Orchestrator.Evaluation.UpdateStatus: uses one timestamp `now` for the call. The source reads the clock separately for `created` and `last_updated`.
- Orchestrator.Evaluation.RunEvaluation: every journal entry of a batch shares the one timestamp `now` given to the call, including `started`, the final status of each instance and the closing `all` entry. The source reads the clock at each write, so `created` and `last_updated` of an instance differ in the source but are equal in the model.
- InstanceLifecycle.ResumeIsIdempotent: assumes a node id read back from `eval_result.json` equals the id it was stored under. If node ids are Python integers, JSON turns the keys of `node_results` into strings. Then the skip at line 283 matches nothing after a reload, and a resume validates the finished nodes again, stores a second entry for each, and submits the best node's patch again. `NodeValidation.AlreadyValidatedNodesSkipped`, `NodeValidation.ValidationIdempotent` and `NodeValidation.BestNodeBookkeeping` describe resumes in these terms too.
- NodeValidation.ValidationIdempotent: assumes the validator gives the same answer for the same patch every time (it is a function of the patch). A flaky testbed run can answer differently, and then a second pass can store results the first did not. The same assumption holds for `InstanceLifecycle.ResumeIsIdempotent`.
- Durations are not modelled: `eval_result["duration"]`, the timing of validations, and the progress bar and log messages.
- Workspace teardown (`shutil.rmtree`, `testbed.destroy`) and `gc.collect` are left out. They change nothing the model records.
- Orchestrator.Evaluation.EvaluateInstance: a new search tree is built for the instance being evaluated, in the instance's own workspace. The source instead reloads the fixed instance `django__django-16379` and rebinds `workspace` to a new workspace for it before building the tree (lines 236-237). This looks like leftover debugging code. The rebinding also changes everything later that uses `workspace`: the runtime check at line 277, the validator at line 299, and the workspace torn down at lines 348-354. The model uses the instance's own workspace for all of these (`InstanceLifecycle.ValidationLoop`, `InstanceLifecycle.InWorkspace`, `Orchestrator.Evaluation.Finish`), so for a newly built tree it validates against the instance's own testbed, where the source would use the other instance's.
- Orchestrator.Evaluation.EvaluateInstance: only three failures are modelled:
  - `create_workspace` raising;
  - `run_search` raising;
  - an unreadable `eval_result.json`.

  Other exceptions raised inside the `try` are not modelled. These include failures of `SearchTree.from_file`, `persist`, `get_finished_nodes`, `generate_git_patch` and the validator itself.
- NodeValidation.Step: a validator result is present or absent. A present but falsy result object is not modelled. For the same reason, `node_results.get(node_id)` at line 318 is read as "has a result".
- `run_single_instance` and `load_instance` are not modelled; they load a dataset. Reading the split's evaluations file in `run_evaluation` is not modelled either: `RunEvaluationFor` takes the loaded list as a parameter.
- The agent, value function, search tree internals, `create_workspace`, the testbed runtime and `create_sha256_hash` are not modelled. They are function values supplied by the caller, and the model says only what is done with their answers.
- Constructor settings that only configure those collaborators are left out: the repository directory, perfect file context, token limits, the dataset name, the report mode, the litellm callbacks and the worker count.
