/**
 * The two shared journals of an evaluation run and the prediction record.
 *
 * The status journal maps an instance id to `{created, last_updated, status}`;
 * the event log maps an instance id to its list of `{timestamp, event}` records.
 * Both live in memory and are rewritten to disk from the map after every update,
 * so the map is also the content of the file.  The functions here describe one
 * update; the class `Orchestrator.Evaluation` applies them in place, and the
 * replay functions describe what a sequence of updates leaves behind.
 */
module Journal {

  /** A timestamp as produced by `datetime.now().isoformat()`; opaque here. */
  type Timestamp = string

  datatype StatusRecord = StatusRecord(created: Timestamp, lastUpdated: Timestamp, status: string)

  /** The events an evaluation logs; `Text` is the name written to `event_log.json`. */
  datatype Event =
    | EvaluateInstanceInitiated
    | WorkspaceCreationStarted
    | WorkspaceCreated
    | SearchTreeExecutionStarted
    | SearchTreeExecutionCompleted
    | EvaluationCompleted
    | EvaluationError
  {
    function Text(): string {
      match this
      case EvaluateInstanceInitiated => "evaluate_instance_initiated"
      case WorkspaceCreationStarted => "workspace_creation_started"
      case WorkspaceCreated => "workspace_created"
      case SearchTreeExecutionStarted => "search_tree_execution_started"
      case SearchTreeExecutionCompleted => "search_tree_execution_completed"
      case EvaluationCompleted => "evaluation_completed"
      case EvaluationError => "evaluation_error"
    }
  }

  datatype EventRecord = EventRecord(timestamp: Timestamp, event: Event)

  /** One line of `all_preds.jsonl`. */
  datatype Prediction = Prediction(modelNameOrPath: string, instanceId: string, modelPatch: string)

  /** The status journal after `update_status(instanceId, status)` at time `now`. */
  function WithStatus(m: map<string, StatusRecord>, instanceId: string, status: string, now: Timestamp)
    : (r: map<string, StatusRecord>)
    ensures r.Keys == m.Keys + {instanceId}
    ensures r[instanceId].status == status && r[instanceId].lastUpdated == now
    ensures instanceId in m ==> r[instanceId].created == m[instanceId].created
    ensures instanceId !in m ==> r[instanceId].created == now
    ensures forall other :: other in m && other != instanceId ==> r[other] == m[other]
  {
    var created := if instanceId in m then m[instanceId].created else now;
    m[instanceId := StatusRecord(created, now, status)]
  }

  /** The events recorded so far for `instanceId` (a missing entry reads as empty, as with a defaultdict). */
  function EventsOf(m: map<string, seq<EventRecord>>, instanceId: string): seq<EventRecord> {
    if instanceId in m then m[instanceId] else []
  }

  /** The event log after `log_event(instanceId, event)` at time `now`. */
  function WithEvent(m: map<string, seq<EventRecord>>, instanceId: string, event: Event, now: Timestamp)
    : (r: map<string, seq<EventRecord>>)
    ensures r.Keys == m.Keys + {instanceId}
    ensures |r[instanceId]| == |EventsOf(m, instanceId)| + 1
    ensures r[instanceId][..|EventsOf(m, instanceId)|] == EventsOf(m, instanceId)
    ensures r[instanceId][|EventsOf(m, instanceId)|] == EventRecord(now, event)
    ensures forall other :: other in m && other != instanceId ==> r[other] == m[other]
  {
    m[instanceId := EventsOf(m, instanceId) + [EventRecord(now, event)]]
  }

  // ---------------------------------------------------------------------------
  // Histories: what a sequence of journal updates leaves behind.
  // ---------------------------------------------------------------------------

  datatype StatusUpdate = StatusUpdate(instanceId: string, status: string, now: Timestamp)

  datatype EventEntry = EventEntry(instanceId: string, event: Event, now: Timestamp)

  /** The status journal after applying `updates` in order. */
  function ReplayStatuses(m: map<string, StatusRecord>, updates: seq<StatusUpdate>): map<string, StatusRecord>
    decreases |updates|
  {
    if updates == [] then m
    else
      var u := updates[|updates| - 1];
      WithStatus(ReplayStatuses(m, updates[..|updates| - 1]), u.instanceId, u.status, u.now)
  }

  /** The event log after applying `entries` in order. */
  function ReplayEvents(m: map<string, seq<EventRecord>>, entries: seq<EventEntry>): map<string, seq<EventRecord>>
    decreases |entries|
  {
    if entries == [] then m
    else
      var e := entries[|entries| - 1];
      WithEvent(ReplayEvents(m, entries[..|entries| - 1]), e.instanceId, e.event, e.now)
  }

  /** The ids touched by a sequence of status updates. */
  function UpdatedIds(updates: seq<StatusUpdate>): set<string> {
    set k | 0 <= k < |updates| :: updates[k].instanceId
  }

  /** The event records that `entries` add for `instanceId`, in order. */
  function EventsFor(entries: seq<EventEntry>, instanceId: string): seq<EventRecord>
    decreases |entries|
  {
    if entries == [] then []
    else
      var e := entries[|entries| - 1];
      EventsFor(entries[..|entries| - 1], instanceId)
        + (if e.instanceId == instanceId then [EventRecord(e.now, e.event)] else [])
  }

  /** After any sequence of updates the journal holds exactly one entry per instance ever updated. */
  lemma {:induction false} ReplayStatusKeys(m: map<string, StatusRecord>, updates: seq<StatusUpdate>)
    ensures ReplayStatuses(m, updates).Keys == m.Keys + UpdatedIds(updates)
    decreases |updates|
  {
    if updates != [] {
      var init := updates[..|updates| - 1];
      ReplayStatusKeys(m, init);
      assert UpdatedIds(updates) == UpdatedIds(init) + {updates[|updates| - 1].instanceId} by {
        forall id | id in UpdatedIds(updates) ensures id in UpdatedIds(init) + {updates[|updates| - 1].instanceId} {
          var k :| 0 <= k < |updates| && updates[k].instanceId == id;
          if k < |updates| - 1 { assert init[k] == updates[k]; }
        }
        forall id | id in UpdatedIds(init) ensures id in UpdatedIds(updates) {
          var k :| 0 <= k < |init| && init[k].instanceId == id;
          assert updates[k] == init[k];
        }
      }
    }
  }

  /** Updates for other instances leave an entry (and its absence) untouched. */
  lemma {:induction false} ReplayStatusOthersUnchanged(m: map<string, StatusRecord>, updates: seq<StatusUpdate>, id: string)
    requires forall k :: 0 <= k < |updates| ==> updates[k].instanceId != id
    ensures id in ReplayStatuses(m, updates) <==> id in m
    ensures id in m ==> ReplayStatuses(m, updates)[id] == m[id]
    decreases |updates|
  {
    if updates != [] {
      ReplayStatusOthersUnchanged(m, updates[..|updates| - 1], id);
    }
  }

  /** Once an instance has an entry, no later update changes its `created` stamp. */
  lemma {:induction false} CreatedNeverChanges(m: map<string, StatusRecord>, updates: seq<StatusUpdate>, id: string)
    requires id in m
    ensures id in ReplayStatuses(m, updates)
    ensures ReplayStatuses(m, updates)[id].created == m[id].created
    decreases |updates|
  {
    if updates != [] {
      CreatedNeverChanges(m, updates[..|updates| - 1], id);
    }
  }

  /**
   * `created` is the time of the FIRST update of the instance, and `status` and
   * `last_updated` come from its LAST update.
   */
  lemma {:induction false} CreatedFirstStatusLast(
    m: map<string, StatusRecord>, before: seq<StatusUpdate>, first: StatusUpdate,
    middle: seq<StatusUpdate>, last: StatusUpdate, after: seq<StatusUpdate>)
    requires first.instanceId !in m
    requires forall k :: 0 <= k < |before| ==> before[k].instanceId != first.instanceId
    requires last.instanceId == first.instanceId
    requires forall k :: 0 <= k < |after| ==> after[k].instanceId != first.instanceId
    ensures var r := ReplayStatuses(m, before + [first] + middle + [last] + after);
      first.instanceId in r
      && r[first.instanceId] == StatusRecord(first.now, last.now, last.status)
  {
    var id := first.instanceId;
    var upToFirst := before + [first];
    assert upToFirst[..|upToFirst| - 1] == before;
    ReplayStatusOthersUnchanged(m, before, id);
    var m1 := ReplayStatuses(m, upToFirst);
    assert m1[id].created == first.now;
    var upToLast := upToFirst + middle + [last];
    assert upToLast[..|upToLast| - 1] == upToFirst + middle;
    ReplayAppend(m, upToFirst, middle);
    CreatedNeverChanges(m1, middle, id);
    var m2 := ReplayStatuses(m, upToLast);
    assert m2[id] == StatusRecord(first.now, last.now, last.status);
    ReplayAppend(m, upToLast, after);
    ReplayStatusOthersUnchanged(m2, after, id);
    assert upToLast + after == before + [first] + middle + [last] + after;
  }

  /** Replaying a concatenation is replaying its parts one after the other. */
  lemma {:induction false} ReplayAppend(m: map<string, StatusRecord>, xs: seq<StatusUpdate>, ys: seq<StatusUpdate>)
    ensures ReplayStatuses(m, xs + ys) == ReplayStatuses(ReplayStatuses(m, xs), ys)
    decreases |ys|
  {
    if ys != [] {
      var ysInit := ys[..|ys| - 1];
      assert (xs + ys)[..|xs + ys| - 1] == xs + ysInit;
      assert (xs + ys)[|xs + ys| - 1] == ys[|ys| - 1];
      ReplayAppend(m, xs, ysInit);
    } else {
      assert xs + ys == xs;
    }
  }

  /**
   * The event log is append-only: every instance's list is its old list followed
   * by exactly the events logged for it, in the order they were logged.
   */
  lemma {:induction false} EventsAppendOnly(m: map<string, seq<EventRecord>>, entries: seq<EventEntry>, id: string)
    ensures EventsOf(ReplayEvents(m, entries), id) == EventsOf(m, id) + EventsFor(entries, id)
    ensures id in m ==> id in ReplayEvents(m, entries)
    decreases |entries|
  {
    if entries != [] {
      var init := entries[..|entries| - 1];
      EventsAppendOnly(m, init, id);
    }
  }
}
