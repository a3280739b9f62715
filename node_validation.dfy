/**
 * Validation of the finished nodes of one instance's search tree
 * (`evaluate_instance`, the loop over `finished_nodes`).
 *
 * For every finished node, in order: a node whose id already has a stored
 * result is skipped; otherwise its patch is hashed, an empty patch gets no
 * result, a patch whose hash was validated earlier in this invocation reuses
 * that result, and any other patch is handed to the validator, whose missing
 * result makes the loop move on to the next node. When the node is the best
 * node of the search, its patch is submitted as the prediction and the
 * instance's `selected_node` and `resolved` fields are set.
 *
 * `Step` is one iteration and `Run` the whole loop, as a specification; the
 * method `Orchestrator.Evaluation.ValidateFinishedNodes` executes it in place.
 * The validator and the patch hash are function values supplied by the caller.
 */
module NodeValidation {
  import opened Wrappers

  type NodeId = int
  type Patch = string
  type PatchHash = string

  /** What the validator reports for a patch: whether it resolves the instance, plus opaque fields. */
  datatype NodeResult = NodeResult(resolved: bool, report: map<string, string>)

  /** A finished node of the search tree and the git patch of its file context. */
  datatype FinishedNode = FinishedNode(nodeId: NodeId, patch: Patch)

  datatype SearchStatus = Completed | Error

  /** The content of `eval_result.json` (the search duration is left out). */
  datatype EvalResult = EvalResult(
    status: Option<SearchStatus>,
    error: Option<string>,
    nodeResults: map<NodeId, NodeResult>,
    selectedNode: Option<NodeId>,
    resolved: Option<bool>)

  /** `{"node_results": {}}`, used when no `eval_result.json` exists yet. */
  function FreshEvalResult(): EvalResult {
    EvalResult(None, None, map[], None, None)
  }

  /**
   * The state the loop works on: the evaluation result, the per-invocation
   * `patch_results` cache, the patches submitted as predictions, the patches
   * handed to the validator (ghost bookkeeping of the calls), and whether
   * `eval_result.json` has been rewritten by the loop.
   */
  datatype LoopState = LoopState(
    eval: EvalResult,
    patchResults: map<PatchHash, NodeResult>,
    submitted: seq<Patch>,
    calls: seq<Patch>,
    written: bool)

  /** The state at loop entry: the cache starts empty in every invocation. */
  function Start(eval: EvalResult): LoopState {
    LoopState(eval, map[], [], [], false)
  }

  /** Best-node bookkeeping and the rewrite of `eval_result.json` after a node that was not skipped. */
  function Bookkeep(s: LoopState, node: FinishedNode, best: Option<NodeId>): (r: LoopState)
    ensures r.written && r.patchResults == s.patchResults && r.calls == s.calls
    ensures r.eval.nodeResults == s.eval.nodeResults
    ensures r.eval.status == s.eval.status && r.eval.error == s.eval.error
    ensures best != Some(node.nodeId) ==> r == s.(written := true)
    ensures best == Some(node.nodeId) ==>
      && r.submitted == s.submitted + [node.patch]
      && r.eval.selectedNode == best
      && r.eval.resolved == (if node.nodeId in s.eval.nodeResults
                             then Some(s.eval.nodeResults[node.nodeId].resolved)
                             else s.eval.resolved)
  {
    if best == Some(node.nodeId) then
      var selected := s.eval.(selectedNode := Some(node.nodeId));
      var e := if node.nodeId in selected.nodeResults
               then selected.(resolved := Some(selected.nodeResults[node.nodeId].resolved))
               else selected;
      s.(eval := e, submitted := s.submitted + [node.patch], written := true)
    else
      s.(written := true)
  }

  /** One iteration of the finished-node loop. */
  function Step(s: LoopState, node: FinishedNode, best: Option<NodeId>,
                hash: Patch -> PatchHash, validate: Patch -> Option<NodeResult>): (r: LoopState)
    // An already validated node is skipped: nothing changes and the validator is not called.
    ensures node.nodeId in s.eval.nodeResults ==> r == s
    // Stored results are never overwritten, and only this node's id can be added.
    ensures forall id :: id in s.eval.nodeResults ==>
              id in r.eval.nodeResults && r.eval.nodeResults[id] == s.eval.nodeResults[id]
    ensures r.eval.nodeResults.Keys <= s.eval.nodeResults.Keys + {node.nodeId}
    // A cache hit stores exactly the cached result, without calling the validator.
    ensures node.nodeId !in s.eval.nodeResults && node.patch != [] && hash(node.patch) in s.patchResults ==>
              && node.nodeId in r.eval.nodeResults
              && r.eval.nodeResults[node.nodeId] == s.patchResults[hash(node.patch)]
              && r.calls == s.calls
    // The validator is called at most once, and only on a cache miss of a non-empty patch.
    ensures r.calls == s.calls
            || (&& r.calls == s.calls + [node.patch]
                && node.nodeId !in s.eval.nodeResults && node.patch != []
                && hash(node.patch) !in s.patchResults)
    // A successful validation is stored for the node and cached under the patch hash.
    ensures r.calls != s.calls && validate(node.patch).Some? ==>
              && r.eval.nodeResults == s.eval.nodeResults[node.nodeId := validate(node.patch).value]
              && r.patchResults == s.patchResults[hash(node.patch) := validate(node.patch).value]
    // A failed validation changes nothing but the record of the call (`continue`).
    ensures r.calls != s.calls && validate(node.patch).None? ==> r == s.(calls := r.calls)
    // An empty patch gets no result.
    ensures node.patch == [] ==> r.eval.nodeResults == s.eval.nodeResults
    // The cache only grows with results the validator returned in this step.
    ensures r.patchResults == s.patchResults || r.calls != s.calls
    // Only the best node touches the prediction log, `selected_node` and `resolved`.
    ensures best != Some(node.nodeId) ==>
              r.submitted == s.submitted && r.eval.selectedNode == s.eval.selectedNode && r.eval.resolved == s.eval.resolved
    ensures r.eval.selectedNode == s.eval.selectedNode || r.eval.selectedNode == best
    ensures r.eval.status == s.eval.status && r.eval.error == s.eval.error
  {
    if node.nodeId in s.eval.nodeResults then s
    else if node.patch == [] then Bookkeep(s, node, best)
    else
      var h := hash(node.patch);
      if h in s.patchResults then
        var cached := s.eval.(nodeResults := s.eval.nodeResults[node.nodeId := s.patchResults[h]]);
        Bookkeep(s.(eval := cached), node, best)
      else
        match validate(node.patch)
        case None => s.(calls := s.calls + [node.patch])
        case Some(res) =>
          var stored := s.eval.(nodeResults := s.eval.nodeResults[node.nodeId := res]);
          Bookkeep(s.(eval := stored, patchResults := s.patchResults[h := res], calls := s.calls + [node.patch]), node, best)
  }

  /** The whole loop over `nodes`, in order. */
  function Run(s: LoopState, nodes: seq<FinishedNode>, best: Option<NodeId>,
               hash: Patch -> PatchHash, validate: Patch -> Option<NodeResult>): (r: LoopState)
    // No stored result is ever overwritten.
    ensures forall id :: id in s.eval.nodeResults ==>
              id in r.eval.nodeResults && r.eval.nodeResults[id] == s.eval.nodeResults[id]
    // New results are only for nodes of the loop.
    ensures forall id :: id in r.eval.nodeResults && id !in s.eval.nodeResults ==>
              exists k :: 0 <= k < |nodes| && nodes[k].nodeId == id
    // At most one validator call per node; earlier calls are kept in order.
    ensures |s.calls| <= |r.calls| <= |s.calls| + |nodes| && r.calls[..|s.calls|] == s.calls
    ensures r.eval.status == s.eval.status && r.eval.error == s.eval.error
    decreases |nodes|
  {
    if nodes == [] then s
    else
      var prev := Run(s, nodes[..|nodes| - 1], best, hash, validate);
      var r := Step(prev, nodes[|nodes| - 1], best, hash, validate);
      assert forall id :: id in r.eval.nodeResults && id !in prev.eval.nodeResults ==> id == nodes[|nodes| - 1].nodeId;
      assert forall k :: 0 <= k < |nodes| - 1 ==> nodes[..|nodes| - 1][k] == nodes[k];
      r
  }

  /** The loop over one more node is one more step. */
  lemma RunSnoc(s: LoopState, nodes: seq<FinishedNode>, i: nat, best: Option<NodeId>,
                hash: Patch -> PatchHash, validate: Patch -> Option<NodeResult>)
    requires i < |nodes|
    ensures Run(s, nodes[..i + 1], best, hash, validate)
         == Step(Run(s, nodes[..i], best, hash, validate), nodes[i], best, hash, validate)
  {
    assert nodes[..i + 1][..i] == nodes[..i];
  }

  // ---------------------------------------------------------------------------
  // Resume: nodes that already have a result are never validated again.
  // ---------------------------------------------------------------------------

  /** When every node already has a stored result the loop changes nothing and calls no validator. */
  lemma {:induction false} AlreadyValidatedNodesSkipped(
    s: LoopState, nodes: seq<FinishedNode>, best: Option<NodeId>,
    hash: Patch -> PatchHash, validate: Patch -> Option<NodeResult>)
    requires forall k :: 0 <= k < |nodes| ==> nodes[k].nodeId in s.eval.nodeResults
    ensures Run(s, nodes, best, hash, validate) == s
    decreases |nodes|
  {
    if nodes != [] {
      AlreadyValidatedNodesSkipped(s, nodes[..|nodes| - 1], best, hash, validate);
    }
  }

  // ---------------------------------------------------------------------------
  // Dedup: the patch cache.
  // ---------------------------------------------------------------------------

  /**
   * The cache holds a result for the hash of every successful validator call,
   * each cached result is what the validator returned for a patch with that
   * hash, and no hash was validated successfully before being validated again.
   */
  ghost predicate CacheTracksCalls(s: LoopState, hash: Patch -> PatchHash, validate: Patch -> Option<NodeResult>) {
    && SuccessesCached(s, hash, validate)
    && CacheWitnessed(s, hash, validate)
    && NoRevalidatedSuccess(s, hash, validate)
  }

  ghost predicate SuccessesCached(s: LoopState, hash: Patch -> PatchHash, validate: Patch -> Option<NodeResult>) {
    forall i :: 0 <= i < |s.calls| && validate(s.calls[i]).Some? ==> hash(s.calls[i]) in s.patchResults
  }

  ghost predicate CacheWitnessed(s: LoopState, hash: Patch -> PatchHash, validate: Patch -> Option<NodeResult>) {
    forall h :: h in s.patchResults ==>
      exists i :: 0 <= i < |s.calls| && hash(s.calls[i]) == h && validate(s.calls[i]) == Some(s.patchResults[h])
  }

  ghost predicate NoRevalidatedSuccess(s: LoopState, hash: Patch -> PatchHash, validate: Patch -> Option<NodeResult>) {
    forall i, j :: 0 <= i < j < |s.calls| && hash(s.calls[i]) == hash(s.calls[j]) ==> validate(s.calls[i]).None?
  }

  /** The conditions under which a step records one validator call on a cache miss. */
  ghost predicate RecordsCall(s: LoopState, r: LoopState, p: Patch, hash: Patch -> PatchHash, validate: Patch -> Option<NodeResult>) {
    && r.calls == s.calls + [p] && hash(p) !in s.patchResults
    && (validate(p).None? ==> r.patchResults == s.patchResults)
    && (validate(p).Some? ==> r.patchResults == s.patchResults[hash(p) := validate(p).value])
  }

  lemma TrackCallCached(s: LoopState, r: LoopState, p: Patch, hash: Patch -> PatchHash, validate: Patch -> Option<NodeResult>)
    requires SuccessesCached(s, hash, validate) && RecordsCall(s, r, p, hash, validate)
    ensures SuccessesCached(r, hash, validate)
  {
    assert forall i :: 0 <= i < |s.calls| ==> r.calls[i] == s.calls[i];
  }

  lemma TrackCallWitnessed(s: LoopState, r: LoopState, p: Patch, hash: Patch -> PatchHash, validate: Patch -> Option<NodeResult>)
    requires CacheWitnessed(s, hash, validate) && RecordsCall(s, r, p, hash, validate)
    ensures CacheWitnessed(r, hash, validate)
  {
    var n := |s.calls|;
    forall g | g in r.patchResults
      ensures exists i :: 0 <= i < |r.calls| && hash(r.calls[i]) == g && validate(r.calls[i]) == Some(r.patchResults[g])
    {
      if validate(p).Some? && g == hash(p) {
        assert hash(r.calls[n]) == g && validate(r.calls[n]) == Some(r.patchResults[g]);
      } else {
        var i :| 0 <= i < n && hash(s.calls[i]) == g && validate(s.calls[i]) == Some(s.patchResults[g]);
        assert r.calls[i] == s.calls[i];
      }
    }
  }

  lemma TrackCallNoRevalidation(s: LoopState, r: LoopState, p: Patch, hash: Patch -> PatchHash, validate: Patch -> Option<NodeResult>)
    requires SuccessesCached(s, hash, validate) && NoRevalidatedSuccess(s, hash, validate)
    requires RecordsCall(s, r, p, hash, validate)
    ensures NoRevalidatedSuccess(r, hash, validate)
  {
    assert forall i :: 0 <= i < |s.calls| ==> r.calls[i] == s.calls[i];
    assert r.calls[|s.calls|] == p;
  }

  lemma StepTracksCalls(
    s: LoopState, node: FinishedNode, best: Option<NodeId>,
    hash: Patch -> PatchHash, validate: Patch -> Option<NodeResult>)
    requires CacheTracksCalls(s, hash, validate)
    ensures CacheTracksCalls(Step(s, node, best, hash, validate), hash, validate)
  {
    var r := Step(s, node, best, hash, validate);
    if r.calls != s.calls {
      TrackCallCached(s, r, node.patch, hash, validate);
      TrackCallWitnessed(s, r, node.patch, hash, validate);
      TrackCallNoRevalidation(s, r, node.patch, hash, validate);
    }
  }

  lemma {:induction false} RunTracksCalls(
    s: LoopState, nodes: seq<FinishedNode>, best: Option<NodeId>,
    hash: Patch -> PatchHash, validate: Patch -> Option<NodeResult>)
    requires CacheTracksCalls(s, hash, validate)
    ensures CacheTracksCalls(Run(s, nodes, best, hash, validate), hash, validate)
    decreases |nodes|
  {
    if nodes != [] {
      RunTracksCalls(s, nodes[..|nodes| - 1], best, hash, validate);
      StepTracksCalls(Run(s, nodes[..|nodes| - 1], best, hash, validate), nodes[|nodes| - 1], best, hash, validate);
    }
  }

  /**
   * Within one invocation the validator is called at most once per patch hash
   * that validated successfully, and every cached result is the validator's
   * result for a patch with that hash.
   */
  lemma {:induction false} ValidatedOncePerHash(
    e: EvalResult, nodes: seq<FinishedNode>, best: Option<NodeId>,
    hash: Patch -> PatchHash, validate: Patch -> Option<NodeResult>)
    ensures var r := Run(Start(e), nodes, best, hash, validate);
      && (forall i, j :: 0 <= i < j < |r.calls| && hash(r.calls[i]) == hash(r.calls[j]) ==>
            validate(r.calls[i]).None?)
      && (forall h :: h in r.patchResults ==>
            exists i :: 0 <= i < |r.calls| && hash(r.calls[i]) == h && validate(r.calls[i]) == Some(r.patchResults[h]))
  {
    RunTracksCalls(Start(e), nodes, best, hash, validate);
  }

  /** Two patches of the loop with the same hash are the same patch. */
  ghost predicate HashInjectiveOn(nodes: seq<FinishedNode>, hash: Patch -> PatchHash) {
    forall i, j :: 0 <= i < |nodes| && 0 <= j < |nodes| && hash(nodes[i].patch) == hash(nodes[j].patch) ==>
      nodes[i].patch == nodes[j].patch
  }

  /** One node without a cache: a new node with a non-empty patch is validated, and a result is stored. */
  function DirectStep(m: map<NodeId, NodeResult>, node: FinishedNode, validate: Patch -> Option<NodeResult>)
    : map<NodeId, NodeResult>
  {
    if node.nodeId in m || node.patch == [] then m
    else match validate(node.patch)
      case None => m
      case Some(res) => m[node.nodeId := res]
  }

  /** Reference definition without a cache: every new node with a non-empty patch is validated. */
  function DirectResults(m: map<NodeId, NodeResult>, nodes: seq<FinishedNode>, validate: Patch -> Option<NodeResult>)
    : map<NodeId, NodeResult>
    decreases |nodes|
  {
    if nodes == [] then m
    else DirectStep(DirectResults(m, nodes[..|nodes| - 1], validate), nodes[|nodes| - 1], validate)
  }

  lemma DirectSnoc(m: map<NodeId, NodeResult>, nodes: seq<FinishedNode>, i: nat, validate: Patch -> Option<NodeResult>)
    requires i < |nodes|
    ensures DirectResults(m, nodes[..i + 1], validate) == DirectStep(DirectResults(m, nodes[..i], validate), nodes[i], validate)
  {
    assert nodes[..i + 1][..i] == nodes[..i];
  }

  /** Every cached result is what the validator returns for each patch of `all` with that hash. */
  ghost predicate CacheAgrees(s: LoopState, all: seq<FinishedNode>, hash: Patch -> PatchHash,
                              validate: Patch -> Option<NodeResult>) {
    forall h, k :: h in s.patchResults && 0 <= k < |all| && hash(all[k].patch) == h ==>
      validate(all[k].patch) == Some(s.patchResults[h])
  }

  lemma CachedStepMatchesDirect(
    s: LoopState, all: seq<FinishedNode>, n: nat, best: Option<NodeId>,
    hash: Patch -> PatchHash, validate: Patch -> Option<NodeResult>)
    requires HashInjectiveOn(all, hash)
    requires n < |all|
    requires CacheAgrees(s, all, hash, validate)
    ensures var r := Step(s, all[n], best, hash, validate);
      && r.eval.nodeResults == DirectStep(s.eval.nodeResults, all[n], validate)
      && CacheAgrees(r, all, hash, validate)
  {
    var node := all[n];
    var r := Step(s, node, best, hash, validate);
    if node.nodeId !in s.eval.nodeResults && node.patch != [] {
      var h := hash(node.patch);
      if h in s.patchResults {
        assert validate(all[n].patch) == Some(s.patchResults[h]);
      } else if validate(node.patch).Some? {
        forall g, k | g in r.patchResults && 0 <= k < |all| && hash(all[k].patch) == g
          ensures validate(all[k].patch) == Some(r.patchResults[g])
        {
          if g == h {
            assert all[k].patch == all[n].patch;
          }
        }
      }
    }
  }

  lemma {:induction false} CachedRunMatchesDirectPrefix(
    e: EvalResult, all: seq<FinishedNode>, n: nat, best: Option<NodeId>,
    hash: Patch -> PatchHash, validate: Patch -> Option<NodeResult>)
    requires HashInjectiveOn(all, hash)
    requires n <= |all|
    ensures var r := Run(Start(e), all[..n], best, hash, validate);
      && r.eval.nodeResults == DirectResults(e.nodeResults, all[..n], validate)
      && CacheAgrees(r, all, hash, validate)
  {
    if n == 0 {
      assert all[..0] == [];
    } else {
      CachedRunMatchesDirectPrefix(e, all, n - 1, best, hash, validate);
      RunSnoc(Start(e), all, n - 1, best, hash, validate);
      DirectSnoc(e.nodeResults, all, n - 1, validate);
      CachedStepMatchesDirect(Run(Start(e), all[..n - 1], best, hash, validate), all, n - 1, best, hash, validate);
    }
  }

  /**
   * Dedup is invisible in the results: when the hash tells distinct patches
   * apart, the cached loop stores exactly what validating every node would.
   */
  lemma {:induction false} CachedRunMatchesDirect(
    e: EvalResult, nodes: seq<FinishedNode>, best: Option<NodeId>,
    hash: Patch -> PatchHash, validate: Patch -> Option<NodeResult>)
    requires HashInjectiveOn(nodes, hash)
    ensures Run(Start(e), nodes, best, hash, validate).eval.nodeResults == DirectResults(e.nodeResults, nodes, validate)
  {
    CachedRunMatchesDirectPrefix(e, nodes, |nodes|, best, hash, validate);
    assert nodes[..|nodes|] == nodes;
  }

  // ---------------------------------------------------------------------------
  // Idempotent resume: validating the same finished nodes again keeps the result.
  // ---------------------------------------------------------------------------

  /**
   * A node needs no further work in `f`: it has a result, or its patch is empty
   * (and, if it is the best node, it is already selected), or its patch fails validation.
   */
  ghost predicate NodeSettled(f: EvalResult, node: FinishedNode, best: Option<NodeId>, validate: Patch -> Option<NodeResult>) {
    || node.nodeId in f.nodeResults
    || (node.patch == [] && (best == Some(node.nodeId) ==> f.selectedNode == best))
    || (node.patch != [] && validate(node.patch).None?)
  }

  ghost predicate Settled(f: EvalResult, nodes: seq<FinishedNode>, best: Option<NodeId>, validate: Patch -> Option<NodeResult>) {
    forall k :: 0 <= k < |nodes| ==> NodeSettled(f, nodes[k], best, validate)
  }

  /** After the loop, every node it went over is settled. */
  lemma {:induction false} RunSettles(
    s: LoopState, nodes: seq<FinishedNode>, best: Option<NodeId>,
    hash: Patch -> PatchHash, validate: Patch -> Option<NodeResult>)
    ensures Settled(Run(s, nodes, best, hash, validate).eval, nodes, best, validate)
    decreases |nodes|
  {
    if nodes != [] {
      var init := nodes[..|nodes| - 1];
      RunSettles(s, init, best, hash, validate);
      var prev := Run(s, init, best, hash, validate);
      var node := nodes[|nodes| - 1];
      var r := Step(prev, node, best, hash, validate);
      forall k | 0 <= k < |nodes| ensures NodeSettled(r.eval, nodes[k], best, validate) {
        if k < |nodes| - 1 {
          assert nodes[k] == init[k];
          assert NodeSettled(prev.eval, init[k], best, validate);
        }
      }
    }
  }

  /**
   * Going over settled nodes with an empty cache leaves the result as it is,
   * validates only failing patches and submits nothing but empty patches.
   */
  lemma {:induction false} SettledRunKeepsResult(
    s: LoopState, nodes: seq<FinishedNode>, best: Option<NodeId>,
    hash: Patch -> PatchHash, validate: Patch -> Option<NodeResult>)
    requires Settled(s.eval, nodes, best, validate) && s.patchResults == map[]
    ensures var r := Run(s, nodes, best, hash, validate);
      && r.eval == s.eval && r.patchResults == map[]
      && (forall i :: |s.calls| <= i < |r.calls| ==> validate(r.calls[i]).None?)
      && |s.submitted| <= |r.submitted| && r.submitted[..|s.submitted|] == s.submitted
      && (forall i :: |s.submitted| <= i < |r.submitted| ==> r.submitted[i] == [])
    decreases |nodes|
  {
    if nodes != [] {
      var init := nodes[..|nodes| - 1];
      assert Settled(s.eval, init, best, validate) by {
        forall k | 0 <= k < |init| ensures NodeSettled(s.eval, init[k], best, validate) {
          assert init[k] == nodes[k];
        }
      }
      SettledRunKeepsResult(s, init, best, hash, validate);
      assert NodeSettled(s.eval, nodes[|nodes| - 1], best, validate);
      SettledStepSubmitsEmpty(Run(s, init, best, hash, validate), nodes[|nodes| - 1], best, hash, validate);
    }
  }

  /** One step over a settled node with an empty cache submits at most one patch, and only an empty one. */
  lemma SettledStepSubmitsEmpty(
    s: LoopState, node: FinishedNode, best: Option<NodeId>,
    hash: Patch -> PatchHash, validate: Patch -> Option<NodeResult>)
    requires NodeSettled(s.eval, node, best, validate) && s.patchResults == map[]
    ensures var r := Step(s, node, best, hash, validate);
      || r.submitted == s.submitted
      || (node.patch == [] && r.submitted == s.submitted + [[]])
  {
  }

  /**
   * Resuming validation on the result of a finished validation pass over the
   * same nodes keeps that result: no stored result, selection or resolution
   * changes, the validator is only asked again about patches that fail, and
   * the only thing submitted again is the empty patch of a best node.
   */
  lemma {:induction false} ValidationIdempotent(
    e: EvalResult, nodes: seq<FinishedNode>, best: Option<NodeId>,
    hash: Patch -> PatchHash, validate: Patch -> Option<NodeResult>)
    ensures var f := Run(Start(e), nodes, best, hash, validate).eval;
      var again := Run(Start(f), nodes, best, hash, validate);
      && again.eval == f
      && again.patchResults == map[]
      && (forall i :: 0 <= i < |again.calls| ==> validate(again.calls[i]).None?)
      && (forall k :: 0 <= k < |again.submitted| ==> again.submitted[k] == [])
  {
    var f := Run(Start(e), nodes, best, hash, validate).eval;
    RunSettles(Start(e), nodes, best, hash, validate);
    SettledRunKeepsResult(Start(f), nodes, best, hash, validate);
  }

  // ---------------------------------------------------------------------------
  // The best node: prediction, selected_node and resolved.
  // ---------------------------------------------------------------------------

  /** Only patches of nodes with the best node's id are ever submitted, and earlier submissions are kept. */
  lemma {:induction false} SubmissionsComeFromBestNode(
    s: LoopState, nodes: seq<FinishedNode>, b: NodeId,
    hash: Patch -> PatchHash, validate: Patch -> Option<NodeResult>)
    ensures var r := Run(s, nodes, Some(b), hash, validate);
      && |s.submitted| <= |r.submitted| && r.submitted[..|s.submitted|] == s.submitted
      && forall k :: |s.submitted| <= k < |r.submitted| ==>
           exists j :: 0 <= j < |nodes| && nodes[j].nodeId == b && nodes[j].patch == r.submitted[k]
    decreases |nodes|
  {
    if nodes != [] {
      var init := nodes[..|nodes| - 1];
      SubmissionsComeFromBestNode(s, init, b, hash, validate);
      var prev := Run(s, init, Some(b), hash, validate);
      var node := nodes[|nodes| - 1];
      var r := Step(prev, node, Some(b), hash, validate);
      assert r.submitted == prev.submitted || (node.nodeId == b && r.submitted == prev.submitted + [node.patch]);
      forall k | |s.submitted| <= k < |r.submitted|
        ensures exists j :: 0 <= j < |nodes| && nodes[j].nodeId == b && nodes[j].patch == r.submitted[k]
      {
        if k < |prev.submitted| {
          assert r.submitted[k] == prev.submitted[k];
          var j :| 0 <= j < |init| && init[j].nodeId == b && init[j].patch == prev.submitted[k];
          assert nodes[j] == init[j];
        } else {
          assert nodes[|nodes| - 1].patch == r.submitted[k];
        }
      }
    }
  }

  /** No two finished nodes share an id, as in one search tree. */
  predicate DistinctNodeIds(nodes: seq<FinishedNode>) {
    forall i, j :: 0 <= i < j < |nodes| ==> nodes[i].nodeId != nodes[j].nodeId
  }

  /**
   * With distinct node ids the loop appends at most one prediction, and none
   * when no node is the best node.
   */
  lemma {:induction false} AtMostOneSubmission(
    s: LoopState, nodes: seq<FinishedNode>, b: NodeId,
    hash: Patch -> PatchHash, validate: Patch -> Option<NodeResult>)
    requires DistinctNodeIds(nodes)
    ensures var r := Run(s, nodes, Some(b), hash, validate);
      && |r.submitted| <= |s.submitted| + 1
      && ((forall k :: 0 <= k < |nodes| ==> nodes[k].nodeId != b) ==> r.submitted == s.submitted)
    decreases |nodes|
  {
    if nodes != [] {
      var init := nodes[..|nodes| - 1];
      var last := nodes[|nodes| - 1];
      assert forall k :: 0 <= k < |init| ==> init[k] == nodes[k];
      AtMostOneSubmission(s, init, b, hash, validate);
      StepSubmitsAtMostOnce(Run(s, init, Some(b), hash, validate), last, b, hash, validate);
      if last.nodeId == b {
        assert forall k :: 0 <= k < |init| ==> init[k].nodeId != b;
      }
    }
  }

  /** One iteration appends at most one prediction, and only for the best node. */
  lemma StepSubmitsAtMostOnce(s: LoopState, node: FinishedNode, b: NodeId,
                              hash: Patch -> PatchHash, validate: Patch -> Option<NodeResult>)
    ensures var r := Step(s, node, Some(b), hash, validate);
      && |r.submitted| <= |s.submitted| + 1
      && (node.nodeId != b ==> r.submitted == s.submitted)
  {
  }

  /** A best node that gets its result in this call is submitted exactly once. */
  lemma BestNodeSubmittedOnce(
    e: EvalResult, nodes: seq<FinishedNode>, b: NodeId,
    hash: Patch -> PatchHash, validate: Patch -> Option<NodeResult>)
    requires DistinctNodeIds(nodes)
    ensures var r := Run(Start(e), nodes, Some(b), hash, validate);
      b in r.eval.nodeResults && b !in e.nodeResults ==> |r.submitted| == 1
  {
    AtMostOneSubmission(Start(e), nodes, b, hash, validate);
    BestNodeBookkeeping(e, nodes, b, hash, validate);
  }

  /**
   * A submission selects the best node; once the best node gets a result in
   * this invocation, `resolved` is that result's flag; a best node that already
   * had a result before the loop is neither submitted nor re-selected; and
   * `selected_node` and `resolved` change only along with a submission.
   */
  lemma {:induction false} BestNodeBookkeeping(
    e: EvalResult, nodes: seq<FinishedNode>, b: NodeId,
    hash: Patch -> PatchHash, validate: Patch -> Option<NodeResult>)
    ensures var r := Run(Start(e), nodes, Some(b), hash, validate);
      && (r.submitted != [] ==> r.eval.selectedNode == Some(b))
      && (b in r.eval.nodeResults && b !in e.nodeResults ==>
            && r.submitted != []
            && r.eval.selectedNode == Some(b)
            && r.eval.resolved == Some(r.eval.nodeResults[b].resolved))
      && (b in e.nodeResults ==>
            r.submitted == [] && r.eval.selectedNode == e.selectedNode && r.eval.resolved == e.resolved)
      && (r.eval.selectedNode != e.selectedNode || r.eval.resolved != e.resolved ==> r.submitted != [])
    decreases |nodes|
  {
    if nodes != [] {
      BestNodeBookkeeping(e, nodes[..|nodes| - 1], b, hash, validate);
    }
  }
}
