/**
 * The game-flow state machine: a current state, a handler per state, and per
 * state an ordered list of guarded transitions. An update fires the first
 * transition out of the current state whose guard accepts the input, runs the
 * handler of its target, and moves to the target.
 *
 * Handlers are opaque callbacks of the game; the model identifies each one by a
 * value of type `H` and records every handler call (with the input it got and
 * the state the machine was in at the time) in the `handled` log. Guards are
 * pure functions of the input.
 */
module GameMachine {
  import opened Options

  datatype GameState =
    | Init | ShuffleAndDeal | Bidding | RetryBidding | Playing | PlayerTurn
    | Pause | Settlement | ShowWinner | NewRound | End

  datatype Transition<!I> = Transition(toState: GameState, condition: I -> bool)

  /** One call of a state handler: which handler, its input (`None` for the JavaScript `null`) and the state the machine was in. */
  datatype Handled<H, I> = Handled(handler: H, input: Option<I>, stateBefore: GameState)

  /** The target of the first transition in `ts` whose guard accepts `input`. */
  function FirstFiring<I>(ts: seq<Transition<I>>, input: I): (r: Option<GameState>)
    ensures r.None? <==> forall i :: 0 <= i < |ts| ==> !ts[i].condition(input)
    ensures r.Some? ==> exists i :: (0 <= i < |ts| && ts[i].condition(input) && ts[i].toState == r.value
      && forall j :: 0 <= j < i ==> !ts[j].condition(input))
  {
    if ts == [] then None
    else if ts[0].condition(input) then Some(ts[0].toState)
    else
      var r := FirstFiring(ts[1..], input);
      assert r.Some? ==> exists i :: (0 < i < |ts| && ts[i].condition(input) && ts[i].toState == r.value
        && forall j :: 0 <= j < i ==> !ts[j].condition(input)) by {
        if r.Some? {
          var i :| 0 <= i < |ts| - 1 && ts[1..][i].condition(input) && ts[1..][i].toState == r.value
            && forall j :: 0 <= j < i ==> !ts[1..][j].condition(input);
          assert forall j :: 0 <= j < i + 1 ==> !ts[j].condition(input) by {
            forall j | 0 <= j < i + 1 ensures !ts[j].condition(input) {
              if j > 0 { assert ts[j] == ts[1..][j - 1]; }
            }
          }
        }
      }
      r
  }

  /** Transitions listed earlier take precedence: a later list is only consulted when no earlier one fires. */
  lemma {:induction false} FirstFiringConcat<I>(p: seq<Transition<I>>, q: seq<Transition<I>>, input: I)
    ensures FirstFiring(p + q, input)
      == if FirstFiring(p, input).Some? then FirstFiring(p, input) else FirstFiring(q, input)
  {
    if p == [] {
      assert p + q == q;
    } else {
      assert (p + q)[0] == p[0];
      assert (p + q)[1..] == p[1..] + q;
      FirstFiringConcat(p[1..], q, input);
    }
  }

  class StateMachine<H, I> {
    var currentState: GameState
    var nextState: Option<GameState>
    var states: map<GameState, H>
    var transitions: map<GameState, seq<Transition<I>>>
    /** Every handler call so far, oldest first. */
    var handled: seq<Handled<H, I>>

    /** Between calls no transition is pending. */
    ghost predicate Valid()
      reads this
    {
      nextState == None
    }

    /** The transitions out of state `s`, in the order they were added. */
    function TransitionsFrom(s: GameState): (r: seq<Transition<I>>)
      reads this
      ensures s !in transitions ==> r == []
    {
      if s in transitions then transitions[s] else []
    }

    constructor(initialState: GameState)
      ensures Valid()
      ensures currentState == initialState
      ensures states == map[] && transitions == map[] && handled == []
    {
      currentState := initialState;
      nextState := None;
      states := map[];
      transitions := map[];
      handled := [];
    }

    /**
     * Registers (or replaces) the handler of `stateName`; with `immediate` set and
     * `stateName` the current state, runs it at once with a `null` input.
     */
    method AddState(stateName: GameState, handler: H, immediate: bool)
      requires Valid()
      modifies this
      ensures Valid()
      ensures states == old(states)[stateName := handler]
      ensures transitions == old(transitions) && currentState == old(currentState)
      ensures handled == old(handled)
        + (if immediate && stateName == old(currentState) then [Handled(handler, None, stateName)] else [])
    {
      states := states[stateName := handler];
      if immediate && stateName == currentState {
        HandleState(stateName, None);
      }
    }

    /** Appends a guarded transition to the list of `fromState`. */
    method AddTransition(fromState: GameState, toState: GameState, condition: I -> bool)
      requires Valid()
      modifies this
      ensures Valid()
      ensures transitions == old(transitions)[fromState := old(TransitionsFrom(fromState)) + [Transition(toState, condition)]]
      ensures states == old(states) && currentState == old(currentState) && handled == old(handled)
      ensures forall input :: (FirstFiring(TransitionsFrom(fromState), input)
        == if FirstFiring(old(TransitionsFrom(fromState)), input).Some?
           then FirstFiring(old(TransitionsFrom(fromState)), input)
           else if condition(input) then Some(toState) else None)
    {
      if fromState !in transitions {
        transitions := transitions[fromState := []];
      }
      ghost var before := transitions[fromState];
      transitions := transitions[fromState := transitions[fromState] + [Transition(toState, condition)]];
      forall input
        ensures FirstFiring(before + [Transition(toState, condition)], input)
          == if FirstFiring(before, input).Some? then FirstFiring(before, input)
             else if condition(input) then Some(toState) else None
      {
        FirstFiringConcat(before, [Transition(toState, condition)], input);
      }
    }

    /**
     * Fires the first transition out of the current state whose guard accepts
     * `input`: the target's handler (if any) runs with `input` while the machine
     * is still in the old state, then the target becomes the current state.
     * With no accepting guard nothing changes.
     */
    method Update(input: I)
      requires Valid()
      modifies this
      ensures Valid()
      ensures states == old(states) && transitions == old(transitions)
      ensures var fired := FirstFiring(old(TransitionsFrom(currentState)), input);
        && currentState == (if fired.Some? then fired.value else old(currentState))
        && handled == old(handled)
          + (if fired.Some? && fired.value in states then [Handled(states[fired.value], Some(input), old(currentState))] else [])
    {
      if currentState in transitions {
        var currentTransitions := transitions[currentState];
        var k := 0;
        while k < |currentTransitions|
          invariant 0 <= k <= |currentTransitions|
          invariant nextState == None
          invariant transitions == old(transitions) && currentState == old(currentState)
          invariant FirstFiring(currentTransitions, input) == FirstFiring(currentTransitions[k..], input)
        {
          if currentTransitions[k].condition(input) {
            TransitionTo(currentTransitions[k].toState);
            break;
          }
          assert currentTransitions[k..][1..] == currentTransitions[k + 1..];
          k := k + 1;
        }
      }
      if nextState.Some? {
        HandleState(nextState.value, Some(input));
        nextState := None;
      }
    }

    method TransitionTo(newState: GameState)
      modifies this
      ensures nextState == Some(newState)
      ensures currentState == old(currentState) && states == old(states)
      ensures transitions == old(transitions) && handled == old(handled)
    {
      nextState := Some(newState);
    }

    /** Runs the handler of `state` if one is registered, then makes `state` current whether or not one was. */
    method HandleState(state: GameState, input: Option<I>)
      modifies this
      ensures currentState == state
      ensures nextState == old(nextState) && states == old(states) && transitions == old(transitions)
      ensures handled == old(handled)
        + (if state in states then [Handled(states[state], input, old(currentState))] else [])
    {
      if state in states {
        handled := handled + [Handled(states[state], input, currentState)];
      }
      currentState := state;
    }

    function GetCurrentState(): (r: GameState)
      reads this
      ensures r == currentState
    {
      currentState
    }
  }
}
