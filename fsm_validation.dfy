/**
 * The checks a single finite-state machine must pass: it has states, an initial
 * state, a final state, and every transition leads to one of its states.
 */
module FsmValidation {
  import opened Fsm

  /** Every transition of every state leads to a state of the same machine. */
  predicate Closed(m: Machine)
  {
    forall s, t :: s in m.states && t in s.transitions ==> HasState(m, t.dest)
  }

  /** The conjunction the four checks of `validate` compute. */
  predicate ValidMachine(m: Machine)
  {
    && m.states != []
    && (exists s :: s in m.states && s.isInitial)
    && (exists s :: s in m.states && s.isFinal)
    && Closed(m)
  }

  /** `validate_state_count`: false exactly when the machine has no states. */
  function ValidateStateCount(m: Machine): (r: bool)
    ensures !r <==> m.states == []
  {
    |m.states| != 0
  }

  /** `validate_any_initial_state`: some state is initial. */
  function ValidateAnyInitialState(m: Machine): (r: bool)
    ensures r <==> exists s :: s in m.states && s.isInitial
  {
    if exists j :: 0 <= j < |m.states| && m.states[j].isInitial then true
    else
      assert forall s :: s in m.states ==> !s.isInitial;
      false
  }

  /** `validate_any_final_state`: some state is final. */
  function ValidateAnyFinalState(m: Machine): (r: bool)
    ensures r <==> exists s :: s in m.states && s.isFinal
  {
    if exists j :: 0 <= j < |m.states| && m.states[j].isFinal then true
    else
      assert forall s :: s in m.states ==> !s.isFinal;
      false
  }

  /** `validate_transitions`: every destination id names a state of the machine. */
  method ValidateTransitions(m: Machine) returns (r: bool)
    ensures r <==> Closed(m)
  {
    r := true;
    for a := 0 to |m.states|
      invariant r <==> forall j, t :: 0 <= j < a && t in m.states[j].transitions ==> HasState(m, t.dest)
    {
      var s := m.states[a];
      for b := 0 to |s.transitions|
        invariant r <==> (forall j, t :: 0 <= j < a && t in m.states[j].transitions ==> HasState(m, t.dest))
                         && forall i :: 0 <= i < b ==> HasState(m, s.transitions[i].dest)
      {
        if TryLookupState(m, s.transitions[b].dest).None? {
          r := false;
        }
      }
    }
  }

  /** `validate`: all four checks are evaluated and the machine is valid iff each holds. */
  method Validate(m: Machine) returns (r: bool)
    ensures r <==> ValidMachine(m)
  {
    var c1 := ValidateStateCount(m);
    var c2 := ValidateAnyInitialState(m);
    var c3 := ValidateAnyFinalState(m);
    var c4 := ValidateTransitions(m);
    r := c1 && c2 && c3 && c4;
  }

  /** In a valid machine every lookup along a transition succeeds. */
  lemma ValidMachineLookups(m: Machine, s: State, t: Transition)
    requires ValidMachine(m) && s in m.states && t in s.transitions
    ensures LookupState(m, t.dest).id == t.dest
    ensures TryLookupState(m, t.dest).Some?
  {
  }
}
