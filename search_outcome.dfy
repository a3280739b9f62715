/**
 * The search stage of `evaluate_instance`: which search tree is used, what
 * running the search records in `eval_result`, and which events it logs.
 *
 * A persisted `trajectory.json` whose tree reports itself finished is reused
 * as it is; a persisted tree that is not finished is loaded again (with the
 * workspace) and resumed; without a persisted tree a new one is built.
 * `run_search` is then called on whichever tree was chosen (also on a reused,
 * finished one) and may raise; the status is `completed` when it returns and
 * `error`, with the exception text, when it raises.
 */
module SearchOutcome {
  import opened Wrappers
  import opened NodeValidation
  import opened Journal

  /** What this model needs of a search tree. */
  datatype SearchTree = SearchTree(finished: bool, bestNode: Option<NodeId>, finishedNodes: seq<FinishedNode>)

  /** How the search tree of an evaluation was obtained. */
  datatype TreeSource = Reused | Resumed | Created

  /** The tree to search with, given the persisted tree (if `trajectory.json` exists) and a newly built one. */
  function ResolveTree(persisted: Option<SearchTree>, created: SearchTree): (r: (SearchTree, TreeSource))
    ensures r.1 == Reused <==> persisted.Some? && persisted.value.finished
    ensures r.1 == Resumed <==> persisted.Some? && !persisted.value.finished
    ensures r.1 == Created <==> persisted.None?
    ensures persisted.Some? ==> r.0 == persisted.value
    ensures persisted.None? ==> r.0 == created
  {
    match persisted
    case Some(t) => if t.finished then (t, Reused) else (t, Resumed)
    case None => (created, Created)
  }

  /** What `run_search` leaves behind: the tree as it advanced it, and the exception text if it raised. */
  datatype SearchRun = SearchRun(tree: SearchTree, raised: Option<string>)

  function StatusText(status: SearchStatus): string {
    match status
    case Completed => "completed"
    case Error => "error"
  }

  /**
   * `eval_result` after the search, the status it now holds, and the best
   * node (`get_best_trajectory` is only reached when the search returned).
   */
  function RecordSearch(eval: EvalResult, run: SearchRun): (r: (EvalResult, SearchStatus, Option<NodeId>))
    ensures r.0.status == Some(r.1)
    ensures r.1 == Completed <==> run.raised.None?
    ensures run.raised.Some? ==> r.0.error == run.raised && r.2 == None
    ensures run.raised.None? ==> r.0.error == eval.error && r.2 == run.tree.bestNode
    ensures r.0.nodeResults == eval.nodeResults
    ensures r.0.selectedNode == eval.selectedNode && r.0.resolved == eval.resolved
  {
    match run.raised
    case None => (eval.(status := Some(Completed)), Completed, run.tree.bestNode)
    case Some(text) => (eval.(status := Some(Error), error := Some(text)), Error, None)
  }

  /** The events logged while the search tree is chosen: the workspace events unless a finished tree is reused. */
  function TreeEvents(source: TreeSource): (r: seq<Event>)
    ensures source == Reused <==> r == []
  {
    if source == Reused then [] else [WorkspaceCreationStarted, WorkspaceCreated]
  }

  /** The events logged around `run_search`: its start, and its completion only when it returned. */
  function RunEvents(run: SearchRun): (r: seq<Event>)
    ensures |r| >= 1 && r[0] == SearchTreeExecutionStarted
    ensures SearchTreeExecutionCompleted in r <==> run.raised.None?
  {
    if run.raised.None? then [SearchTreeExecutionStarted, SearchTreeExecutionCompleted] else [SearchTreeExecutionStarted]
  }

  /** The events logged from tree resolution to the end of the search. */
  function SearchEvents(source: TreeSource, run: SearchRun): (r: seq<Event>)
    ensures (source == Reused) <==> WorkspaceCreated !in r
    ensures SearchTreeExecutionStarted in r
    ensures SearchTreeExecutionCompleted in r <==> run.raised.None?
  {
    TreeEvents(source) + RunEvents(run)
  }
}
