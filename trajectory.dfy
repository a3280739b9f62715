/**
 * `get_actions`: the names of all actions of a persisted trajectory, in the
 * order of its transitions and, within a transition, of its actions.
 */
module Trajectory {

  datatype Action = Action(action: string)

  datatype Transition = Transition(actions: seq<Action>)

  datatype Trajectory = Trajectory(transitions: seq<Transition>)

  /** The action names of one transition. */
  function NamesOf(actions: seq<Action>): seq<string> {
    seq(|actions|, k requires 0 <= k < |actions| => actions[k].action)
  }

  /** All action names of the transitions, flattened in order. */
  function ActionNames(transitions: seq<Transition>): seq<string>
    decreases |transitions|
  {
    if transitions == [] then []
    else ActionNames(transitions[..|transitions| - 1]) + NamesOf(transitions[|transitions| - 1].actions)
  }

  /** The number of actions over all transitions. */
  function ActionCount(transitions: seq<Transition>): nat
    decreases |transitions|
  {
    if transitions == [] then 0
    else ActionCount(transitions[..|transitions| - 1]) + |transitions[|transitions| - 1].actions|
  }

  /**
   * Flattening loses and invents nothing: there is one name per action, and a
   * name occurs exactly when some transition holds an action with that name.
   */
  lemma {:induction false} ActionNamesSpec(transitions: seq<Transition>)
    ensures |ActionNames(transitions)| == ActionCount(transitions)
    ensures forall name :: name in ActionNames(transitions) <==>
      exists t, k :: 0 <= t < |transitions| && 0 <= k < |transitions[t].actions| && transitions[t].actions[k].action == name
    decreases |transitions|
  {
    if transitions != [] {
      var init := transitions[..|transitions| - 1];
      var last := transitions[|transitions| - 1];
      ActionNamesSpec(init);
      forall name | name in ActionNames(transitions)
        ensures exists t, k :: 0 <= t < |transitions| && 0 <= k < |transitions[t].actions| && transitions[t].actions[k].action == name
      {
        if name in ActionNames(init) {
          var t, k :| 0 <= t < |init| && 0 <= k < |init[t].actions| && init[t].actions[k].action == name;
          assert transitions[t] == init[t];
        } else {
          assert name in NamesOf(last.actions);
          var k :| 0 <= k < |last.actions| && NamesOf(last.actions)[k] == name;
          assert transitions[|transitions| - 1].actions[k].action == name;
        }
      }
      forall name | exists t, k :: 0 <= t < |transitions| && 0 <= k < |transitions[t].actions| && transitions[t].actions[k].action == name
        ensures name in ActionNames(transitions)
      {
        var t, k :| 0 <= t < |transitions| && 0 <= k < |transitions[t].actions| && transitions[t].actions[k].action == name;
        if t < |transitions| - 1 {
          assert init[t] == transitions[t];
        } else {
          assert NamesOf(last.actions)[k] == name;
        }
      }
    }
  }

  /** `get_actions`: appends every action name in two nested loops. */
  method GetActions(trajectory: Trajectory) returns (actions: seq<string>)
    ensures actions == ActionNames(trajectory.transitions)
  {
    var transitions := trajectory.transitions;
    actions := [];
    for t := 0 to |transitions|
      invariant actions == ActionNames(transitions[..t])
    {
      var transition := transitions[t];
      var before := actions;
      for k := 0 to |transition.actions|
        invariant actions == before + NamesOf(transition.actions[..k])
      {
        actions := actions + [transition.actions[k].action];
      }
      assert transition.actions[..|transition.actions|] == transition.actions;
      assert transitions[..t + 1][..t] == transitions[..t];
    }
    assert transitions[..|transitions|] == transitions;
  }
}
