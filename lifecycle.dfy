/**
 * What one call of `evaluate_instance` does, as a value: the task outcome, the
 * statuses and events it journals (in order), the `eval_result.json` and
 * `trajectory.json` it leaves behind and the patches it submits as
 * predictions. The class `Orchestrator.Evaluation` performs these effects in
 * place; the lemmas here state the guarantees of the per-instance state
 * machine.
 *
 * Collaborators (workspace factory, search tree construction, the search
 * itself, the validator and the patch hash) are function values: the model
 * says what is done with their answers, never how they compute them.
 */
module InstanceLifecycle {
  import opened Wrappers
  import opened NodeValidation
  import opened SearchOutcome
  import opened Instances
  import opened Batch
  import opened Journal

  /** A sandbox that applies a patch and runs the tests; no result means the run failed. */
  datatype Runtime = Runtime(evaluate: Patch -> Option<NodeResult>)

  /** A prepared workspace; it has a runtime only when a testbed is attached. */
  datatype Workspace = Workspace(runtime: Option<Runtime>)

  /** A persisted `eval_result.json`: readable, or not parseable (e.g. a partial write). */
  datatype StoredEval = Corrupt | Stored(eval: EvalResult)

  datatype Collaborators = Collaborators(
    createWorkspace: Instance -> Option<Workspace>,   // no workspace: `create_workspace` raised
    createTree: Instance -> SearchTree,               // a new search tree for the instance
    runSearch: SearchTree -> SearchRun,               // `run_search` and what it leaves behind
    hash: Patch -> PatchHash)                         // `create_sha256_hash`

  /** Everything one evaluation of an instance does. */
  datatype Effect = Effect(
    outcome: TaskOutcome<Option<EvalResult>>,
    statuses: seq<string>,
    events: seq<Event>,
    evalFile: Option<EvalResult>,
    trajectory: Option<SearchTree>,
    submitted: seq<Patch>)

  /** The evaluation result a run starts from: the persisted one, or `{"node_results": {}}`. */
  function LoadedEval(stored: Option<StoredEval>): EvalResult
    requires stored != Some(Corrupt)
  {
    match stored
    case Some(s) => s.eval
    case None => FreshEvalResult()
  }

  /** Whether the finished nodes are validated: only with a testbed and a runtime. */
  predicate Validates(useTestbed: bool, ws: Workspace) {
    useTestbed && ws.runtime.Some?
  }

  /** The search tree `evaluate_instance` runs the search on. */
  function ChosenTree(instance: Instance, persisted: Option<SearchTree>, env: Collaborators): SearchTree {
    ResolveTree(persisted, env.createTree(instance)).0
  }

  /** The finished-node loop as `InWorkspace` runs it (or skips it without a testbed runtime). */
  function ValidationLoop(ws: Workspace, e1: EvalResult, run: SearchRun, best: Option<NodeId>,
                          useTestbed: bool, env: Collaborators): (r: LoopState)
    ensures forall id :: id in e1.nodeResults ==> id in r.eval.nodeResults && r.eval.nodeResults[id] == e1.nodeResults[id]
    ensures r.eval.status == e1.status && r.eval.error == e1.error
    ensures !Validates(useTestbed, ws) ==> r.eval == e1 && r.submitted == []
  {
    if Validates(useTestbed, ws)
    then Run(Start(e1), run.tree.finishedNodes, best, env.hash, ws.runtime.value.evaluate)
    else Start(e1)
  }

  /**
   * The guarded part of `evaluate_instance` once a workspace exists: choose
   * and run the search, validate the finished nodes when a testbed runtime is
   * available, and finish with `evaluation_completed` and the search status.
   */
  function InWorkspace(instance: Instance, ws: Workspace, e0: EvalResult, persisted: Option<SearchTree>,
                       useTestbed: bool, env: Collaborators): (r: Effect)
    ensures r.outcome.Returned? && r.outcome.value.Some? && r.evalFile == r.outcome.value
    ensures |r.statuses| == 1 && (r.statuses[0] == "completed" <==> env.runSearch(ChosenTree(instance, persisted, env)).raised.None?)
    ensures r.trajectory == Some(env.runSearch(ChosenTree(instance, persisted, env)).tree)
    ensures |r.events| >= 2 && r.events[|r.events| - 1] == EvaluationCompleted
  {
    var (tree, source) := ResolveTree(persisted, env.createTree(instance));
    var run := env.runSearch(tree);
    var (e1, status, best) := RecordSearch(e0, run);
    var loop := ValidationLoop(ws, e1, run, best, useTestbed, env);
    Effect(Returned(Some(loop.eval)), [StatusText(status)], SearchEvents(source, run) + [EvaluationCompleted],
           Some(loop.eval), Some(run.tree), loop.submitted)
  }

  /** `InWorkspace` stage by stage, for the method that performs it. */
  lemma InWorkspaceStages(instance: Instance, ws: Workspace, e0: EvalResult, persisted: Option<SearchTree>,
                          useTestbed: bool, env: Collaborators, tree: SearchTree, source: TreeSource,
                          run: SearchRun, e1: EvalResult, status: SearchStatus, best: Option<NodeId>)
    requires (tree, source) == ResolveTree(persisted, env.createTree(instance))
    requires run == env.runSearch(tree)
    requires (e1, status, best) == RecordSearch(e0, run)
    ensures var eff := InWorkspace(instance, ws, e0, persisted, useTestbed, env);
      var loop := ValidationLoop(ws, e1, run, best, useTestbed, env);
      && eff.outcome == Returned(Some(loop.eval))
      && eff.statuses == [StatusText(status)]
      && eff.events == SearchEvents(source, run) + [EvaluationCompleted]
      && eff.evalFile == Some(loop.eval)
      && eff.trajectory == Some(run.tree)
      && eff.submitted == loop.submitted
  {
  }

  /**
   * The guarded part of `evaluate_instance`: a workspace that cannot be
   * created ends the evaluation with `evaluation_error`, status `error` and no
   * result.
   */
  function Guarded(instance: Instance, e0: EvalResult, persisted: Option<SearchTree>,
                   useTestbed: bool, env: Collaborators): (r: Effect)
    ensures |r.statuses| == 1 && r.evalFile.Some?
    ensures r.outcome == Returned(None) <==> env.createWorkspace(instance).None?
    ensures env.createWorkspace(instance).None? ==> r.evalFile == Some(e0) && r.submitted == [] && r.trajectory.None?
  {
    match env.createWorkspace(instance)
    case None => Effect(Returned(None), ["error"], [EvaluationError], Some(e0), None, [])
    case Some(ws) => InWorkspace(instance, ws, e0, persisted, useTestbed, env)
  }

  /**
   * `evaluate_instance(instance)`, given the instance's persisted evaluation
   * result and search tree (if any), whether a testbed is used, and the
   * collaborators.
   */
  function Evaluate(instance: Instance, stored: Option<StoredEval>, persisted: Option<SearchTree>,
                    useTestbed: bool, env: Collaborators): (r: Effect)
    ensures r.outcome == Raised <==> stored == Some(Corrupt)
    ensures r.outcome != Raised ==> |r.statuses| == 2 && r.statuses[0] == "started" && |r.events| >= 1
                                    && r.events[0] == EvaluateInstanceInitiated && r.evalFile.Some?
  {
    if stored == Some(Corrupt) then
      // `json.load` raises before the guarded block: nothing is journaled or written.
      Effect(Raised, [], [], None, None, [])
    else
      var rest := Guarded(instance, LoadedEval(stored), persisted, useTestbed, env);
      rest.(statuses := ["started"] + rest.statuses, events := [EvaluateInstanceInitiated] + rest.events)
  }

  /**
   * The task raises exactly when the persisted evaluation result cannot be
   * read, and then nothing is journaled, written or submitted.
   */
  lemma CorruptResultRaises(instance: Instance, stored: Option<StoredEval>, persisted: Option<SearchTree>,
                            useTestbed: bool, env: Collaborators)
    ensures var eff := Evaluate(instance, stored, persisted, useTestbed, env);
      && (eff.outcome == Raised <==> stored == Some(Corrupt))
      && (eff.outcome == Raised ==>
            eff.statuses == [] && eff.events == [] && eff.evalFile.None? && eff.trajectory.None? && eff.submitted == [])
  {
  }

  /**
   * Status outcome: a readable instance is journaled `started`, then
   * `completed` exactly when the workspace was created and `run_search`
   * returned, and `error` otherwise; the search error text is kept, the
   * persisted tree is whatever the search left, and the returned result is the
   * one written to `eval_result.json`.
   */
  lemma StatusReflectsSearch(instance: Instance, stored: Option<StoredEval>, persisted: Option<SearchTree>,
                             useTestbed: bool, env: Collaborators)
    requires stored != Some(Corrupt)
    ensures var eff := Evaluate(instance, stored, persisted, useTestbed, env);
      && |eff.statuses| == 2 && eff.statuses[0] == "started"
      && eff.events[0] == EvaluateInstanceInitiated
      && (env.createWorkspace(instance).None? ==>
            && eff.statuses[1] == "error"
            && eff.events[|eff.events| - 1] == EvaluationError
            && eff.outcome == Returned(None)
            && eff.evalFile == Some(LoadedEval(stored)))
      && (env.createWorkspace(instance).Some? ==>
            var run := env.runSearch(ChosenTree(instance, persisted, env));
            && eff.outcome.Returned? && eff.outcome.value.Some?
            && eff.evalFile == eff.outcome.value
            && eff.trajectory == Some(run.tree)
            && eff.events[|eff.events| - 1] == EvaluationCompleted
            && (eff.statuses[1] == "completed" <==> run.raised.None?)
            && (eff.statuses[1] == "error" <==> run.raised.Some?)
            && eff.outcome.value.value.status == Some(if run.raised.None? then Completed else Error)
            && (run.raised.Some? ==> eff.outcome.value.value.error == run.raised && eff.submitted == []))
  {
    var eff := Evaluate(instance, stored, persisted, useTestbed, env);
    if env.createWorkspace(instance).Some? {
      var ws := env.createWorkspace(instance).value;
      var (tree, source) := ResolveTree(persisted, env.createTree(instance));
      var run := env.runSearch(tree);
      var (e1, status, best) := RecordSearch(LoadedEval(stored), run);
      if Validates(useTestbed, ws) {
        var nodes := run.tree.finishedNodes;
        if run.raised.Some? {
          BestNodeNoneSubmitsNothing(e1, nodes, env.hash, ws.runtime.value.evaluate);
        }
      }
    }
  }

  /** Without a best node nothing is submitted. */
  lemma {:induction false} BestNodeNoneSubmitsNothing(
    e: EvalResult, nodes: seq<FinishedNode>, hash: Patch -> PatchHash, validate: Patch -> Option<NodeResult>)
    ensures Run(Start(e), nodes, None, hash, validate).submitted == []
    decreases |nodes|
  {
    if nodes != [] {
      BestNodeNoneSubmitsNothing(e, nodes[..|nodes| - 1], hash, validate);
    }
  }

  /**
   * One evaluation submits at most one prediction, provided the finished
   * nodes of the tree the search leaves have distinct ids.
   */
  lemma AtMostOnePrediction(instance: Instance, stored: Option<StoredEval>, persisted: Option<SearchTree>,
                            useTestbed: bool, env: Collaborators)
    requires DistinctNodeIds(env.runSearch(ChosenTree(instance, persisted, env)).tree.finishedNodes)
    ensures |Evaluate(instance, stored, persisted, useTestbed, env).submitted| <= 1
  {
    if stored != Some(Corrupt) && env.createWorkspace(instance).Some? {
      var ws := env.createWorkspace(instance).value;
      var (tree, source) := ResolveTree(persisted, env.createTree(instance));
      var run := env.runSearch(tree);
      var (e1, status, best) := RecordSearch(LoadedEval(stored), run);
      if Validates(useTestbed, ws) {
        if best.Some? {
          AtMostOneSubmission(Start(e1), run.tree.finishedNodes, best.value, env.hash, ws.runtime.value.evaluate);
        } else {
          BestNodeNoneSubmitsNothing(e1, run.tree.finishedNodes, env.hash, ws.runtime.value.evaluate);
        }
      }
    }
  }

  /**
   * A persisted tree that reports itself finished is reused: no new tree is
   * built (the outcome does not depend on how one would be built) and no
   * workspace events are logged.
   */
  lemma FinishedTreeReused(instance: Instance, stored: Option<StoredEval>, t: SearchTree,
                           useTestbed: bool, env: Collaborators, otherTree: Instance -> SearchTree)
    requires t.finished
    ensures var eff := Evaluate(instance, stored, Some(t), useTestbed, env);
      && eff == Evaluate(instance, stored, Some(t), useTestbed, env.(createTree := otherTree))
      && WorkspaceCreated !in eff.events
      && (stored != Some(Corrupt) && env.createWorkspace(instance).Some? ==>
            eff.trajectory == Some(env.runSearch(t).tree))
  {
    var eff := Evaluate(instance, stored, Some(t), useTestbed, env);
    if stored != Some(Corrupt) && env.createWorkspace(instance).Some? {
      var run := env.runSearch(t);
      var mid := SearchEvents(Reused, run);
      assert WorkspaceCreated !in mid;
      assert eff.events == [EvaluateInstanceInitiated] + mid + [EvaluationCompleted];
    }
  }

  /**
   * Idempotent resume: evaluating an instance again after a run whose search
   * finished and returned normally, with the files that run left behind and a
   * search that leaves a finished tree as it is, reproduces the same result,
   * tree and statuses.
   */
  lemma ResumeIsIdempotent(instance: Instance, stored: Option<StoredEval>, persisted: Option<SearchTree>,
                           useTestbed: bool, env: Collaborators)
    requires var first := Evaluate(instance, stored, persisted, useTestbed, env);
      && first.outcome.Returned? && first.outcome.value.Some?
      && first.outcome.value.value.status == Some(Completed)
      && first.trajectory.Some? && first.trajectory.value.finished
      && env.runSearch(first.trajectory.value) == SearchRun(first.trajectory.value, None)
    ensures var first := Evaluate(instance, stored, persisted, useTestbed, env);
      var again := Evaluate(instance, Some(Stored(first.evalFile.value)), first.trajectory, useTestbed, env);
      && again.outcome == first.outcome
      && again.evalFile == first.evalFile
      && again.trajectory == first.trajectory
      && again.statuses == first.statuses
  {
    var first := Evaluate(instance, stored, persisted, useTestbed, env);
    var ws := env.createWorkspace(instance).value;
    var (tree, source) := ResolveTree(persisted, env.createTree(instance));
    var run := env.runSearch(tree);
    var (e1, status, best) := RecordSearch(LoadedEval(stored), run);
    assert run.raised.None?;
    var t := run.tree;
    var f := first.evalFile.value;
    var again := Evaluate(instance, Some(Stored(f)), Some(t), useTestbed, env);
    var (e1', status', best') := RecordSearch(f, env.runSearch(t));
    assert e1' == f;
    assert best' == best;
    if Validates(useTestbed, ws) {
      ValidationIdempotent(e1, t.finishedNodes, best, env.hash, ws.runtime.value.evaluate);
    }
  }
}
