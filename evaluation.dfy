/**
 * The `Evaluation` object: its in-memory status journal and event log (whose
 * every update is also written whole to `status_summary.json` and
 * `event_log.json`), the prediction log `all_preds.jsonl`, and the per-instance
 * `eval_result.json` and `trajectory.json` files, here kept as maps from
 * instance id to the file's content.
 *
 * Each method performs the effects that `InstanceLifecycle.Evaluate` and the
 * `Journal` functions describe, and its postcondition says so.
 */
module Orchestrator {
  import opened Wrappers
  import opened Journal
  import opened NodeValidation
  import opened SearchOutcome
  import opened Instances
  import opened Batch
  import opened InstanceLifecycle

  /** The status updates that journal `names` for one instance, in order. */
  function Updates(instanceId: string, names: seq<string>, now: Timestamp): (r: seq<StatusUpdate>)
    ensures |r| == |names|
    ensures forall k :: 0 <= k < |r| ==> r[k] == StatusUpdate(instanceId, names[k], now)
  {
    seq(|names|, k requires 0 <= k < |names| => StatusUpdate(instanceId, names[k], now))
  }

  /** The event entries that log `names` for one instance, in order. */
  function Entries(instanceId: string, names: seq<Event>, now: Timestamp): (r: seq<EventEntry>)
    ensures |r| == |names|
    ensures forall k :: 0 <= k < |r| ==> r[k] == EventEntry(instanceId, names[k], now)
  {
    seq(|names|, k requires 0 <= k < |names| => EventEntry(instanceId, names[k], now))
  }

  /** The prediction lines that submitting `patches` for one instance appends. */
  function PredictionsFor(modelName: string, instanceId: string, patches: seq<Patch>): (r: seq<Prediction>)
    ensures |r| == |patches|
  {
    seq(|patches|, k requires 0 <= k < |patches| => Prediction(modelName, instanceId, patches[k]))
  }

  /** The persisted `eval_result.json` of an instance, if the file exists. */
  function StoredOf(files: map<string, StoredEval>, instanceId: string): Option<StoredEval> {
    if instanceId in files then Some(files[instanceId]) else None
  }

  /** The persisted `trajectory.json` of an instance, if the file exists. */
  function TreeOf(files: map<string, SearchTree>, instanceId: string): Option<SearchTree> {
    if instanceId in files then Some(files[instanceId]) else None
  }

  /** The `eval_result.json` content an evaluation leaves, if it writes one. */
  function StoredFile(written: Option<EvalResult>): Option<StoredEval> {
    if written.Some? then Some(Stored(written.value)) else None
  }

  /** A file map after an optional rewrite of one entry. */
  function Rewritten<V>(files: map<string, V>, instanceId: string, content: Option<V>): map<string, V> {
    if content.Some? then files[instanceId := content.value] else files
  }

  lemma UpdatesSnoc(m: map<string, StatusRecord>, instanceId: string, names: seq<string>, name: string, now: Timestamp)
    ensures ReplayStatuses(m, Updates(instanceId, names + [name], now))
         == WithStatus(ReplayStatuses(m, Updates(instanceId, names, now)), instanceId, name, now)
  {
    var us := Updates(instanceId, names + [name], now);
    assert us[..|us| - 1] == Updates(instanceId, names, now);
  }

  lemma StatusesAppend(m: map<string, StatusRecord>, instanceId: string, xs: seq<string>, ys: seq<string>, now: Timestamp)
    ensures ReplayStatuses(m, Updates(instanceId, xs + ys, now))
         == ReplayStatuses(ReplayStatuses(m, Updates(instanceId, xs, now)), Updates(instanceId, ys, now))
  {
    assert Updates(instanceId, xs + ys, now) == Updates(instanceId, xs, now) + Updates(instanceId, ys, now);
    ReplayAppend(m, Updates(instanceId, xs, now), Updates(instanceId, ys, now));
  }

  lemma SingleUpdate(m: map<string, StatusRecord>, instanceId: string, status: string, now: Timestamp)
    ensures ReplayStatuses(m, Updates(instanceId, [status], now)) == WithStatus(m, instanceId, status, now)
  {
    assert Updates(instanceId, [status], now)[..0] == [];
  }

  lemma TwoUpdates(m: map<string, StatusRecord>, instanceId: string, first: string, second: string, now: Timestamp)
    ensures ReplayStatuses(m, Updates(instanceId, [first, second], now))
         == WithStatus(WithStatus(m, instanceId, first, now), instanceId, second, now)
  {
    SingleUpdate(m, instanceId, first, now);
    assert Updates(instanceId, [first, second], now)[..1] == Updates(instanceId, [first], now);
  }

  /** The event records that logging `names` at `now` appends, in order. */
  function Records(names: seq<Event>, now: Timestamp): (r: seq<EventRecord>)
    ensures |r| == |names|
    ensures forall k :: 0 <= k < |r| ==> r[k] == EventRecord(now, names[k])
  {
    seq(|names|, k requires 0 <= k < |names| => EventRecord(now, names[k]))
  }

  /** The event log after logging `names` for one instance: only that instance's log grows. */
  function Logged(m: map<string, seq<EventRecord>>, instanceId: string, names: seq<Event>, now: Timestamp)
    : map<string, seq<EventRecord>>
  {
    if names == [] then m else m[instanceId := EventsOf(m, instanceId) + Records(names, now)]
  }

  lemma LoggedSnoc(m: map<string, seq<EventRecord>>, instanceId: string, names: seq<Event>, name: Event, now: Timestamp)
    ensures Logged(m, instanceId, names + [name], now) == WithEvent(Logged(m, instanceId, names, now), instanceId, name, now)
  {
    var e, rec := EventsOf(m, instanceId), EventRecord(now, name);
    var before := Logged(m, instanceId, names, now);
    assert Records(names + [name], now) == Records(names, now) + [rec];
    assert EventsOf(before, instanceId) == e + Records(names, now);
    assert e + Records(names + [name], now) == (e + Records(names, now)) + [rec];
    assert WithEvent(before, instanceId, name, now) == m[instanceId := e + Records(names + [name], now)];
  }

  lemma LoggedAppend(m: map<string, seq<EventRecord>>, instanceId: string, xs: seq<Event>, ys: seq<Event>, now: Timestamp)
    ensures Logged(Logged(m, instanceId, xs, now), instanceId, ys, now) == Logged(m, instanceId, xs + ys, now)
  {
    if xs == [] {
      assert xs + ys == ys;
    } else if ys != [] {
      assert Records(xs + ys, now) == Records(xs, now) + Records(ys, now);
      assert EventsOf(m, instanceId) + Records(xs + ys, now)
          == (EventsOf(m, instanceId) + Records(xs, now)) + Records(ys, now);
    } else {
      assert xs + ys == xs;
    }
  }

  lemma LoggedOne(m: map<string, seq<EventRecord>>, instanceId: string, e: Event, now: Timestamp)
    ensures Logged(m, instanceId, [e], now) == WithEvent(m, instanceId, e, now)
  {
    LoggedSnoc(m, instanceId, [], e, now);
    assert [] + [e] == [e];
  }

  lemma LoggedTwo(m: map<string, seq<EventRecord>>, instanceId: string, e1: Event, e2: Event, now: Timestamp)
    ensures Logged(m, instanceId, [e1, e2], now) == WithEvent(WithEvent(m, instanceId, e1, now), instanceId, e2, now)
  {
    LoggedOne(m, instanceId, e1, now);
    LoggedSnoc(m, instanceId, [e1], e2, now);
    assert [e1] + [e2] == [e1, e2];
  }

  /**
   * Logging `names` one `log_event` call at a time is the journal replay of
   * the corresponding entries.
   */
  lemma {:induction false} LoggedIsReplay(m: map<string, seq<EventRecord>>, instanceId: string, names: seq<Event>, now: Timestamp)
    ensures Logged(m, instanceId, names, now) == ReplayEvents(m, Entries(instanceId, names, now))
    decreases |names|
  {
    if names != [] {
      var init := names[..|names| - 1];
      LoggedIsReplay(m, instanceId, init, now);
      LoggedSnoc(m, instanceId, init, names[|names| - 1], now);
      assert init + [names[|names| - 1]] == names;
      EntriesPrefix(instanceId, names, now);
    }
  }

  lemma EntriesPrefix(instanceId: string, names: seq<Event>, now: Timestamp)
    requires names != []
    ensures Entries(instanceId, names, now)[..|names| - 1] == Entries(instanceId, names[..|names| - 1], now)
  {
  }

  lemma PredictionsSnoc(modelName: string, instanceId: string, patches: seq<Patch>, patch: Patch)
    ensures PredictionsFor(modelName, instanceId, patches + [patch])
         == PredictionsFor(modelName, instanceId, patches) + [Prediction(modelName, instanceId, patch)]
  {
  }

  lemma NoPredictions(modelName: string, instanceId: string, log: seq<Prediction>)
    ensures log + PredictionsFor(modelName, instanceId, []) == log
  {
    assert PredictionsFor(modelName, instanceId, []) == [];
  }

  // ---------------------------------------------------------------------------
  // The batch: `_run_evaluation` evaluates the instances one task each.
  // ---------------------------------------------------------------------------

  /** Everything an evaluation updates: both journals, the prediction log and the per-instance files. */
  datatype State = State(
    statuses: map<string, StatusRecord>,
    events: map<string, seq<EventRecord>>,
    predictions: seq<Prediction>,
    evalFiles: map<string, StoredEval>,
    trajectoryFiles: map<string, SearchTree>)

  /** The state after `evaluate_instance(instance)` at time `now`, and the task's outcome. */
  function Evaluated(st: State, instance: Instance, modelName: string, useTestbed: bool,
                     env: Collaborators, now: Timestamp): (State, TaskOutcome<Option<EvalResult>>)
  {
    var id := instance.instanceId;
    var eff := Evaluate(instance, StoredOf(st.evalFiles, id), TreeOf(st.trajectoryFiles, id), useTestbed, env);
    (State(ReplayStatuses(st.statuses, Updates(id, eff.statuses, now)),
           Logged(st.events, id, eff.events, now),
           st.predictions + PredictionsFor(modelName, id, eff.submitted),
           Rewritten(st.evalFiles, id, StoredFile(eff.evalFile)),
           Rewritten(st.trajectoryFiles, id, eff.trajectory)),
     eff.outcome)
  }

  /** The state after evaluating `instances` one after the other, and their outcomes in that order. */
  function EvaluateAll(st: State, instances: seq<Instance>, modelName: string, useTestbed: bool,
                       env: Collaborators, now: Timestamp): (r: (State, seq<TaskOutcome<Option<EvalResult>>>))
    ensures |r.1| == |instances|
    decreases |instances|
  {
    if instances == [] then (st, [])
    else
      var before := EvaluateAll(st, instances[..|instances| - 1], modelName, useTestbed, env, now);
      var after := Evaluated(before.0, instances[|instances| - 1], modelName, useTestbed, env, now);
      (after.0, before.1 + [after.1])
  }

  lemma EvaluateAllSnoc(st: State, instances: seq<Instance>, i: nat, modelName: string, useTestbed: bool,
                        env: Collaborators, now: Timestamp)
    requires i < |instances|
    ensures var before := EvaluateAll(st, instances[..i], modelName, useTestbed, env, now);
      var after := Evaluated(before.0, instances[i], modelName, useTestbed, env, now);
      EvaluateAll(st, instances[..i + 1], modelName, useTestbed, env, now) == (after.0, before.1 + [after.1])
  {
    assert instances[..i + 1][..i] == instances[..i];
  }

  /** The ids of a batch. */
  function IdsOf(instances: seq<Instance>): set<string> {
    set k | 0 <= k < |instances| :: instances[k].instanceId
  }

  /** How many instances of the batch have an `eval_result.json` that cannot be read. */
  function Unreadable(instances: seq<Instance>, files: map<string, StoredEval>): (n: nat)
    ensures n <= |instances|
    decreases |instances|
  {
    if instances == [] then 0
    else
      Unreadable(instances[..|instances| - 1], files)
        + (if StoredOf(files, instances[|instances| - 1].instanceId) == Some(Corrupt) then 1 else 0)
  }

  /** Evaluating other instances leaves an instance's files as they were. */
  lemma {:induction false} EvaluateAllLeavesOthers(st: State, instances: seq<Instance>, modelName: string,
                                                   useTestbed: bool, env: Collaborators, now: Timestamp, id: string)
    requires id !in IdsOf(instances)
    ensures var r := EvaluateAll(st, instances, modelName, useTestbed, env, now).0;
      StoredOf(r.evalFiles, id) == StoredOf(st.evalFiles, id)
      && TreeOf(r.trajectoryFiles, id) == TreeOf(st.trajectoryFiles, id)
    decreases |instances|
  {
    if instances != [] {
      var init := instances[..|instances| - 1];
      assert IdsOf(init) <= IdsOf(instances) by {
        forall x | x in IdsOf(init) ensures x in IdsOf(instances) {
          var k :| 0 <= k < |init| && init[k].instanceId == x;
          assert instances[k] == init[k];
        }
      }
      assert instances[|instances| - 1].instanceId in IdsOf(instances);
      EvaluateAllLeavesOthers(st, init, modelName, useTestbed, env, now, id);
    }
  }

  /**
   * An evaluation never makes an `eval_result.json` unreadable and never
   * repairs one: an unreadable file is left alone, every other write is a
   * readable result.
   */
  lemma {:induction false} CorruptFilesStayCorrupt(st: State, instances: seq<Instance>, modelName: string,
                                                   useTestbed: bool, env: Collaborators, now: Timestamp, id: string)
    ensures var r := EvaluateAll(st, instances, modelName, useTestbed, env, now).0;
      StoredOf(r.evalFiles, id) == Some(Corrupt) <==> StoredOf(st.evalFiles, id) == Some(Corrupt)
    decreases |instances|
  {
    if instances != [] {
      var init := instances[..|instances| - 1];
      var last := instances[|instances| - 1];
      CorruptFilesStayCorrupt(st, init, modelName, useTestbed, env, now, id);
      var mid := EvaluateAll(st, init, modelName, useTestbed, env, now).0;
      if last.instanceId == id {
        CorruptResultRaises(last, StoredOf(mid.evalFiles, id), TreeOf(mid.trajectoryFiles, id), useTestbed, env);
      }
    }
  }

  /**
   * The error count of a batch is the number of instances whose
   * `eval_result.json` could not be read before the batch started (an id
   * listed twice counts twice).
   */
  lemma {:induction false} ErrorsAreUnreadableResults(st: State, instances: seq<Instance>, modelName: string,
                                                      useTestbed: bool, env: Collaborators, now: Timestamp)
    ensures CountRaised(EvaluateAll(st, instances, modelName, useTestbed, env, now).1) == Unreadable(instances, st.evalFiles)
    decreases |instances|
  {
    if instances != [] {
      var init := instances[..|instances| - 1];
      var last := instances[|instances| - 1];
      ErrorsAreUnreadableResults(st, init, modelName, useTestbed, env, now);
      var before := EvaluateAll(st, init, modelName, useTestbed, env, now);
      CorruptFilesStayCorrupt(st, init, modelName, useTestbed, env, now, last.instanceId);
      var mid := before.0;
      CorruptResultRaises(last, StoredOf(mid.evalFiles, last.instanceId), TreeOf(mid.trajectoryFiles, last.instanceId),
                          useTestbed, env);
      var after := Evaluated(mid, last, modelName, useTestbed, env, now);
      CountRaisedAppend(before.1, [after.1]);
    }
  }

  /**
   * One evaluation only appends to the prediction log, only lines for its own
   * instance and model, and at most one line when the finished nodes of its
   * search tree have distinct ids.
   */
  lemma EvaluatedAppendsOwnPredictions(st: State, instance: Instance, modelName: string, useTestbed: bool,
                                       env: Collaborators, now: Timestamp)
    ensures var r := Evaluated(st, instance, modelName, useTestbed, env, now).0;
      && |st.predictions| <= |r.predictions|
      && r.predictions[..|st.predictions|] == st.predictions
      && forall k :: |st.predictions| <= k < |r.predictions| ==>
           r.predictions[k] == Prediction(modelName, instance.instanceId, r.predictions[k].modelPatch)
    ensures var r := Evaluated(st, instance, modelName, useTestbed, env, now).0;
      var tree := ChosenTree(instance, TreeOf(st.trajectoryFiles, instance.instanceId), env);
      DistinctNodeIds(env.runSearch(tree).tree.finishedNodes) ==> |r.predictions| <= |st.predictions| + 1
  {
    var id := instance.instanceId;
    var tree := ChosenTree(instance, TreeOf(st.trajectoryFiles, id), env);
    if DistinctNodeIds(env.runSearch(tree).tree.finishedNodes) {
      AtMostOnePrediction(instance, StoredOf(st.evalFiles, id), TreeOf(st.trajectoryFiles, id), useTestbed, env);
    }
    var eff := Evaluate(instance, StoredOf(st.evalFiles, id), TreeOf(st.trajectoryFiles, id), useTestbed, env);
    var added := PredictionsFor(modelName, id, eff.submitted);
    var r := st.predictions + added;
    forall k | |st.predictions| <= k < |r|
      ensures r[k] == Prediction(modelName, id, r[k].modelPatch)
    {
      assert r[k] == added[k - |st.predictions|];
    }
  }

  /**
   * The batch only appends to the prediction log, and every line it appends
   * names the evaluation's model and one of the batch's instances.
   */
  lemma {:induction false} PredictionsBelongToBatch(st: State, instances: seq<Instance>, modelName: string,
                                                    useTestbed: bool, env: Collaborators, now: Timestamp)
    ensures var r := EvaluateAll(st, instances, modelName, useTestbed, env, now).0;
      && |st.predictions| <= |r.predictions|
      && r.predictions[..|st.predictions|] == st.predictions
      && forall k :: |st.predictions| <= k < |r.predictions| ==>
           r.predictions[k].modelNameOrPath == modelName && r.predictions[k].instanceId in IdsOf(instances)
    decreases |instances|
  {
    if instances != [] {
      var init := instances[..|instances| - 1];
      var last := instances[|instances| - 1];
      PredictionsBelongToBatch(st, init, modelName, useTestbed, env, now);
      var mid := EvaluateAll(st, init, modelName, useTestbed, env, now).0;
      EvaluatedAppendsOwnPredictions(mid, last, modelName, useTestbed, env, now);
      var r := Evaluated(mid, last, modelName, useTestbed, env, now).0.predictions;
      assert last.instanceId in IdsOf(instances);
      forall k | |st.predictions| <= k < |r|
        ensures r[k].modelNameOrPath == modelName && r[k].instanceId in IdsOf(instances)
      {
        if k < |mid.predictions| {
          assert r[k] == mid.predictions[k];
          var j :| 0 <= j < |init| && init[j].instanceId == r[k].instanceId;
          assert instances[j] == init[j];
        }
      }
    }
  }

  class Evaluation {
    const evaluationName: string
    const useTestbed: bool
    /** `self.statuses`, mirrored to `status_summary.json` after every update. */
    var statuses: map<string, StatusRecord>
    /** `self.events`, mirrored to `event_log.json` after every entry. */
    var events: map<string, seq<EventRecord>>
    /** The lines of `all_preds.jsonl`. */
    var predictions: seq<Prediction>
    /** The `eval_result.json` file of each instance directory that has one. */
    var evalFiles: map<string, StoredEval>
    /** The `trajectory.json` file of each instance directory that has one. */
    var trajectoryFiles: map<string, SearchTree>

    /**
     * A new evaluation over an evaluation directory whose files are given; the
     * status journal and event log start empty in memory.
     */
    constructor(evaluationName: string, useTestbed: bool, predictions: seq<Prediction>,
                evalFiles: map<string, StoredEval>, trajectoryFiles: map<string, SearchTree>)
      ensures this.evaluationName == evaluationName && this.useTestbed == useTestbed
      ensures statuses == map[] && events == map[]
      ensures this.predictions == predictions
      ensures this.evalFiles == evalFiles && this.trajectoryFiles == trajectoryFiles
    {
      this.evaluationName := evaluationName;
      this.useTestbed := useTestbed;
      this.statuses := map[];
      this.events := map[];
      this.predictions := predictions;
      this.evalFiles := evalFiles;
      this.trajectoryFiles := trajectoryFiles;
    }

    /** `update_status`: create the entry on first use, then set its status and last update time. */
    method UpdateStatus(instanceId: string, status: string, now: Timestamp)
      modifies this
      ensures statuses == WithStatus(old(statuses), instanceId, status, now)
      ensures events == old(events) && predictions == old(predictions)
      ensures evalFiles == old(evalFiles) && trajectoryFiles == old(trajectoryFiles)
    {
      var record := if instanceId in statuses then statuses[instanceId] else StatusRecord(now, now, status);
      statuses := statuses[instanceId := record.(lastUpdated := now, status := status)];
    }

    /** `log_event`: append a timestamped event to the instance's log. */
    method LogEvent(instanceId: string, event: Event, now: Timestamp)
      modifies this
      ensures events == WithEvent(old(events), instanceId, event, now)
      ensures statuses == old(statuses) && predictions == old(predictions)
      ensures evalFiles == old(evalFiles) && trajectoryFiles == old(trajectoryFiles)
    {
      var log := if instanceId in events then events[instanceId] else [];
      events := events[instanceId := log + [EventRecord(now, event)]];
    }

    /** `save_prediction`: append one line to the prediction log. */
    method SavePrediction(instanceId: string, submission: Patch)
      modifies this
      ensures predictions == old(predictions) + [Prediction(evaluationName, instanceId, submission)]
      ensures statuses == old(statuses) && events == old(events)
      ensures evalFiles == old(evalFiles) && trajectoryFiles == old(trajectoryFiles)
    {
      predictions := predictions + [Prediction(evaluationName, instanceId, submission)];
    }

    /** The evaluation's state as a value. */
    function Snapshot(): State
      reads this
    {
      State(statuses, events, predictions, evalFiles, trajectoryFiles)
    }

    /**
     * `_run_evaluation`: truncate the prediction log, evaluate every instance
     * as one task, count the tasks that raised, and finally mark `all` as
     * `evaluation_completed`. The tasks are taken in submission order.
     */
    method RunEvaluation(instances: seq<Instance>, env: Collaborators, now: Timestamp) returns (error: nat)
      modifies this
      ensures var r := EvaluateAll(old(Snapshot()).(predictions := []), instances, evaluationName, useTestbed, env, now);
        && error == CountRaised(r.1)
        && Snapshot() == r.0.(statuses := WithStatus(r.0.statuses, "all", "evaluation_completed", now))
    {
      assert instances[..|instances|] == instances;
      predictions := [];
      ghost var start := Snapshot();
      var outcomes: seq<TaskOutcome<Option<EvalResult>>> := [];
      for i := 0 to |instances|
        invariant (Snapshot(), outcomes) == EvaluateAll(start, instances[..i], evaluationName, useTestbed, env, now)
      {
        EvaluateAllSnoc(start, instances, i, evaluationName, useTestbed, env, now);
        var outcome := EvaluateInstance(instances[i], env, now);
        outcomes := outcomes + [outcome];
      }
      error := CountErrors(outcomes);
      UpdateStatus("all", "evaluation_completed", now);
    }

    /**
     * `run_evaluation`: the split's instances, most resolvers first and
     * filtered by id, resolver count and repository, go to the batch driver.
     */
    method RunEvaluationFor(split: seq<Instance>, instanceIds: seq<string>, resolvedBy: Option<int>,
                            ignoreRepos: seq<string>, env: Collaborators, now: Timestamp)
      returns (error: nat)
      modifies this
      ensures var r := EvaluateAll(old(Snapshot()).(predictions := []), SelectInstances(split, instanceIds, resolvedBy, ignoreRepos),
                                   evaluationName, useTestbed, env, now);
        && error == CountRaised(r.1)
        && Snapshot() == r.0.(statuses := WithStatus(r.0.statuses, "all", "evaluation_completed", now))
    {
      var instances := SelectInstances(split, instanceIds, resolvedBy, ignoreRepos);
      error := RunEvaluation(instances, env, now);
    }

    /**
     * The end of a loop iteration that was not cut short: the best node's
     * patch is submitted and it becomes `selected_node` (and `resolved` is
     * taken from its result, if it has one); then `eval_result.json` is
     * rewritten. `log` and `files` are the prediction log and the evaluation
     * files before the loop.
     */
    method SelectAndWrite(instanceId: string, current: EvalResult, node: FinishedNode, best: Option<NodeId>,
                          ghost s: LoopState, ghost log: seq<Prediction>, ghost files: map<string, StoredEval>,
                          ghost stale: EvalResult)
      returns (eval: EvalResult, ghost r: LoopState)
      requires current == s.eval
      requires predictions == log + PredictionsFor(evaluationName, instanceId, s.submitted)
      requires evalFiles == (if s.written then files[instanceId := Stored(stale)] else files)
      modifies this
      ensures r == Bookkeep(s, node, best) && eval == r.eval
      ensures predictions == log + PredictionsFor(evaluationName, instanceId, r.submitted)
      ensures evalFiles == files[instanceId := Stored(eval)]
      ensures statuses == old(statuses) && events == old(events) && trajectoryFiles == old(trajectoryFiles)
    {
      eval, r := current, s;
      if best == Some(node.nodeId) {
        SavePrediction(instanceId, node.patch);
        PredictionsSnoc(evaluationName, instanceId, s.submitted, node.patch);
        r := r.(submitted := r.submitted + [node.patch]);
        eval := eval.(selectedNode := Some(node.nodeId));
        if node.nodeId in eval.nodeResults {
          eval := eval.(resolved := Some(eval.nodeResults[node.nodeId].resolved));
        }
      }
      assert files[instanceId := Stored(stale)][instanceId := Stored(eval)] == files[instanceId := Stored(eval)];
      evalFiles := evalFiles[instanceId := Stored(eval)];
      r := r.(eval := eval, written := true);
    }

    /**
     * One iteration of the finished-node loop: skip a node that already has a
     * result, otherwise validate its patch unless the patch is empty or its
     * hash is cached (a failed validation ends the iteration), then submit the
     * best node's patch and rewrite `eval_result.json`.
     */
    method ProcessNode(instanceId: string, current: EvalResult, cache: map<PatchHash, NodeResult>, node: FinishedNode,
                       best: Option<NodeId>, hash: Patch -> PatchHash, validate: Patch -> Option<NodeResult>,
                       ghost s: LoopState, ghost log: seq<Prediction>, ghost files: map<string, StoredEval>)
      returns (eval: EvalResult, patchResults: map<PatchHash, NodeResult>, ghost r: LoopState)
      requires current == s.eval && cache == s.patchResults
      requires predictions == log + PredictionsFor(evaluationName, instanceId, s.submitted)
      requires evalFiles == (if s.written then files[instanceId := Stored(s.eval)] else files)
      modifies this
      ensures r == Step(s, node, best, hash, validate)
      ensures eval == r.eval && patchResults == r.patchResults
      ensures predictions == log + PredictionsFor(evaluationName, instanceId, r.submitted)
      ensures evalFiles == (if r.written then files[instanceId := Stored(eval)] else files)
      ensures statuses == old(statuses) && events == old(events) && trajectoryFiles == old(trajectoryFiles)
    {
      eval, patchResults, r := current, cache, s;
      if node.nodeId in eval.nodeResults {
        return;
      }
      var patch := node.patch;
      var patchHash := hash(patch);
      if patch != [] {
        if patchHash in patchResults {
          eval := eval.(nodeResults := eval.nodeResults[node.nodeId := patchResults[patchHash]]);
        } else {
          var result := validate(patch);
          r := r.(calls := r.calls + [patch]);
          if result.None? {
            return;
          }
          eval := eval.(nodeResults := eval.nodeResults[node.nodeId := result.value]);
          patchResults := patchResults[patchHash := result.value];
        }
      }
      r := r.(eval := eval, patchResults := patchResults);
      eval, r := SelectAndWrite(instanceId, eval, node, best, r, log, files, s.eval);
    }

    /**
     * The finished-node loop of `evaluate_instance`: validate each node's patch
     * (once per patch hash within the call), submit the best node's patch and
     * rewrite `eval_result.json` after every node that is not skipped.
     */
    method ValidateFinishedNodes(instanceId: string, start: EvalResult, nodes: seq<FinishedNode>, best: Option<NodeId>,
                                 hash: Patch -> PatchHash, validate: Patch -> Option<NodeResult>)
      returns (eval: EvalResult)
      modifies this
      ensures var r := Run(Start(start), nodes, best, hash, validate);
        && eval == r.eval
        && predictions == old(predictions) + PredictionsFor(evaluationName, instanceId, r.submitted)
        && evalFiles == (if r.written then old(evalFiles)[instanceId := Stored(eval)] else old(evalFiles))
      ensures statuses == old(statuses) && events == old(events) && trajectoryFiles == old(trajectoryFiles)
    {
      eval := start;
      var patchResults: map<PatchHash, NodeResult> := map[];
      ghost var s := Start(start);
      NoPredictions(evaluationName, instanceId, predictions);
      for i := 0 to |nodes|
        invariant s == Run(Start(start), nodes[..i], best, hash, validate)
        invariant eval == s.eval && patchResults == s.patchResults
        invariant predictions == old(predictions) + PredictionsFor(evaluationName, instanceId, s.submitted)
        invariant evalFiles == (if s.written then old(evalFiles)[instanceId := Stored(eval)] else old(evalFiles))
        invariant statuses == old(statuses) && events == old(events) && trajectoryFiles == old(trajectoryFiles)
      {
        RunSnoc(Start(start), nodes, i, best, hash, validate);
        eval, patchResults, s := ProcessNode(instanceId, eval, patchResults, nodes[i], best, hash, validate,
                                             s, old(predictions), old(evalFiles));
      }
      assert nodes[..|nodes|] == nodes;
    }

    /**
     * `evaluate_instance`: performs exactly the effects `Evaluate` describes on
     * the instance's own files, journal entry and event log, appending its
     * submissions to the prediction log. `Raised` stands for the exception the
     * call lets escape.
     */
    method EvaluateInstance(instance: Instance, env: Collaborators, now: Timestamp)
      returns (outcome: TaskOutcome<Option<EvalResult>>)
      modifies this
      ensures var id := instance.instanceId;
        var eff := Evaluate(instance, StoredOf(old(evalFiles), id), TreeOf(old(trajectoryFiles), id), useTestbed, env);
        && outcome == eff.outcome
        && statuses == ReplayStatuses(old(statuses), Updates(id, eff.statuses, now))
        && events == Logged(old(events), id, eff.events, now)
        && predictions == old(predictions) + PredictionsFor(evaluationName, id, eff.submitted)
        && evalFiles == Rewritten(old(evalFiles), id, StoredFile(eff.evalFile))
        && trajectoryFiles == Rewritten(old(trajectoryFiles), id, eff.trajectory)
    {
      var id := instance.instanceId;
      var eval: EvalResult;
      if id in evalFiles {
        match evalFiles[id]
        case Corrupt =>
          return Raised;
        case Stored(e) =>
          eval := e;
      } else {
        eval := FreshEvalResult();
      }
      ghost var rest := Guarded(instance, eval, TreeOf(trajectoryFiles, id), useTestbed, env);

      UpdateStatus(id, "started", now);
      LogEvent(id, EvaluateInstanceInitiated, now);
      outcome := EvaluateGuarded(instance, env, eval, now);
      LoggedOne(old(events), id, EvaluateInstanceInitiated, now);
      LoggedAppend(old(events), id, [EvaluateInstanceInitiated], rest.events, now);
      SingleUpdate(old(statuses), id, "started", now);
      StatusesAppend(old(statuses), id, ["started"], rest.statuses, now);
    }

    /**
     * The `try` block of `evaluate_instance` with its handler and `finally`
     * clause, as `Guarded` describes it: a workspace that cannot be created
     * marks the instance `error` and yields no result.
     */
    method EvaluateGuarded(instance: Instance, env: Collaborators, loaded: EvalResult, now: Timestamp)
      returns (outcome: TaskOutcome<Option<EvalResult>>)
      modifies this
      ensures var id := instance.instanceId;
        var eff := Guarded(instance, loaded, TreeOf(old(trajectoryFiles), id), useTestbed, env);
        && outcome == eff.outcome
        && statuses == ReplayStatuses(old(statuses), Updates(id, eff.statuses, now))
        && events == Logged(old(events), id, eff.events, now)
        && predictions == old(predictions) + PredictionsFor(evaluationName, id, eff.submitted)
        && evalFiles == old(evalFiles)[id := Stored(eff.evalFile.value)]
        && trajectoryFiles == Rewritten(old(trajectoryFiles), id, eff.trajectory)
    {
      var id := instance.instanceId;
      var workspace := env.createWorkspace(instance);
      if workspace.None? {
        LogEvent(id, EvaluationError, now);
        UpdateStatus(id, "error", now);
        evalFiles := evalFiles[id := Stored(loaded)];
        LoggedOne(old(events), id, EvaluationError, now);
        SingleUpdate(old(statuses), id, "error", now);
        NoPredictions(evaluationName, id, predictions);
        return Returned(None);
      }
      outcome := EvaluateInWorkspace(instance, workspace.value, env, loaded, now);
    }

    /**
     * The guarded part of `evaluate_instance` once the workspace exists, as
     * `InWorkspace` describes it; `eval_result.json` is written last, as the
     * `finally` clause does.
     */
    method EvaluateInWorkspace(instance: Instance, ws: Workspace, env: Collaborators, loaded: EvalResult, now: Timestamp)
      returns (outcome: TaskOutcome<Option<EvalResult>>)
      modifies this
      ensures var id := instance.instanceId;
        var eff := InWorkspace(instance, ws, loaded, TreeOf(old(trajectoryFiles), id), useTestbed, env);
        && outcome == eff.outcome
        && statuses == ReplayStatuses(old(statuses), Updates(id, eff.statuses, now))
        && events == Logged(old(events), id, eff.events, now)
        && predictions == old(predictions) + PredictionsFor(evaluationName, id, eff.submitted)
        && evalFiles == old(evalFiles)[id := Stored(eff.evalFile.value)]
        && trajectoryFiles == old(trajectoryFiles)[id := eff.trajectory.value]
    {
      var id := instance.instanceId;
      ghost var persisted := TreeOf(trajectoryFiles, id);
      var tree;
      ghost var source;
      tree, source := ChooseTree(instance, env, now);
      var eval, status, best, run := RunSearch(id, tree, env, loaded, now);
      LoggedAppend(old(events), id, TreeEvents(source), RunEvents(run), now);
      InWorkspaceStages(instance, ws, loaded, persisted, useTestbed, env, tree, source, run, eval, status, best);
      eval := Finish(id, ws, env, eval, run, best, status, now);
      LoggedSnoc(old(events), id, SearchEvents(source, run), EvaluationCompleted, now);
      SingleUpdate(old(statuses), id, StatusText(status), now);
      outcome := Returned(Some(eval));
    }

    /**
     * The end of the `try` block and the `finally` clause: validate the
     * finished nodes when a testbed runtime is available, log
     * `evaluation_completed`, record the search status and write
     * `eval_result.json`.
     */
    method Finish(instanceId: string, ws: Workspace, env: Collaborators, current: EvalResult, run: SearchRun,
                  best: Option<NodeId>, status: SearchStatus, now: Timestamp)
      returns (eval: EvalResult)
      modifies this
      ensures var loop := ValidationLoop(ws, current, run, best, useTestbed, env);
        && eval == loop.eval
        && predictions == old(predictions) + PredictionsFor(evaluationName, instanceId, loop.submitted)
        && evalFiles == old(evalFiles)[instanceId := Stored(eval)]
      ensures events == WithEvent(old(events), instanceId, EvaluationCompleted, now)
      ensures statuses == WithStatus(old(statuses), instanceId, StatusText(status), now)
      ensures trajectoryFiles == old(trajectoryFiles)
    {
      eval := current;
      if useTestbed && ws.runtime.Some? {
        eval := ValidateFinishedNodes(instanceId, eval, run.tree.finishedNodes, best, env.hash, ws.runtime.value.evaluate);
        assert old(evalFiles)[instanceId := Stored(eval)][instanceId := Stored(eval)] == old(evalFiles)[instanceId := Stored(eval)];
      } else {
        NoPredictions(evaluationName, instanceId, predictions);
      }
      LogEvent(instanceId, EvaluationCompleted, now);
      UpdateStatus(instanceId, StatusText(status), now);
      evalFiles := evalFiles[instanceId := Stored(eval)];
    }

    /**
     * Choosing the search tree: a finished persisted tree is reused as it is;
     * otherwise the workspace events are logged and the persisted tree is
     * resumed or, without one, a new tree is built.
     */
    method ChooseTree(instance: Instance, env: Collaborators, now: Timestamp)
      returns (tree: SearchTree, ghost source: TreeSource)
      modifies this
      ensures (tree, source) == ResolveTree(TreeOf(trajectoryFiles, instance.instanceId), env.createTree(instance))
      ensures events == Logged(old(events), instance.instanceId, TreeEvents(source), now)
      ensures statuses == old(statuses) && predictions == old(predictions)
      ensures evalFiles == old(evalFiles) && trajectoryFiles == old(trajectoryFiles)
    {
      var id := instance.instanceId;
      var persisted := TreeOf(trajectoryFiles, id);
      if persisted.Some? && persisted.value.finished {
        return persisted.value, Reused;
      }
      LogEvent(id, WorkspaceCreationStarted, now);
      LogEvent(id, WorkspaceCreated, now);
      LoggedTwo(old(events), id, WorkspaceCreationStarted, WorkspaceCreated, now);
      if persisted.Some? {
        tree, source := persisted.value, Resumed;
      } else {
        tree, source := env.createTree(instance), Created;
      }
    }

    /**
     * Running the search on the chosen tree: record whether `run_search`
     * returned or raised, take the best node only when it returned, and
     * persist the tree it leaves behind in either case.
     */
    method RunSearch(instanceId: string, tree: SearchTree, env: Collaborators, loaded: EvalResult, now: Timestamp)
      returns (eval: EvalResult, status: SearchStatus, best: Option<NodeId>, run: SearchRun)
      modifies this
      ensures run == env.runSearch(tree)
      ensures (eval, status, best) == RecordSearch(loaded, run)
      ensures trajectoryFiles == old(trajectoryFiles)[instanceId := run.tree]
      ensures events == Logged(old(events), instanceId, RunEvents(run), now)
      ensures statuses == old(statuses) && predictions == old(predictions) && evalFiles == old(evalFiles)
    {
      LogEvent(instanceId, SearchTreeExecutionStarted, now);
      run := env.runSearch(tree);
      best := None;
      if run.raised.None? {
        best := run.tree.bestNode;
        LogEvent(instanceId, SearchTreeExecutionCompleted, now);
        LoggedTwo(old(events), instanceId, SearchTreeExecutionStarted, SearchTreeExecutionCompleted, now);
        eval, status := loaded.(status := Some(Completed)), Completed;
      } else {
        LoggedOne(old(events), instanceId, SearchTreeExecutionStarted, now);
        eval, status := loaded.(error := run.raised, status := Some(Error)), Error;
      }
      trajectoryFiles := trajectoryFiles[instanceId := run.tree];
    }
  }
}
