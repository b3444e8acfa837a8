/**
 * The structural checks a machine net must pass before a pilot is built from it.
 * Each check is a boolean that is false exactly when its condition is violated
 * somewhere; `validate` evaluates all seven and is their conjunction.
 */
module MnetValidation {
  import opened Fsm
  import opened Mnet

  // ---------------------------------------------------------------------------
  // What each check establishes

  predicate StateNotReentrant(s: State)
  {
    forall t :: t in s.transitions ==> t.dest != 0
  }

  predicate MachineNotReentrant(m: Machine)
  {
    forall s :: s in m.states ==> StateNotReentrant(s)
  }

  /** No transition anywhere enters a state 0. */
  predicate NotReentrant(net: MachineNet)
  {
    forall m :: m in net.machines ==> MachineNotReentrant(m)
  }

  /** Every machine has at least one state. */
  predicate NonEmptyMachines(net: MachineNet)
  {
    forall m :: m in net.machines ==> |m.states| > 0
  }

  /** A state is initial exactly when its id is 0. */
  predicate StateInitialIffZero(s: State)
  {
    s.isInitial <==> s.id == 0
  }

  predicate MachineInitialIffZero(m: Machine)
  {
    forall s :: s in m.states ==> StateInitialIffZero(s)
  }

  predicate InitialIffZero(net: MachineNet)
  {
    forall m :: m in net.machines ==> MachineInitialIffZero(m)
  }

  predicate HasFinalState(m: Machine)
  {
    exists s :: s in m.states && s.isFinal
  }

  /** Every machine has a final state. */
  predicate AllHaveFinalState(net: MachineNet)
  {
    forall m :: m in net.machines ==> HasFinalState(m)
  }

  /**
   * Transition `i` of `ts`, leaving a state of machine `m`, goes to an existing state
   * of `m`, names an existing machine if its label is uppercase, and no later
   * transition of the same state carries the same label.
   */
  predicate TransitionValid(net: MachineNet, m: Machine, ts: seq<Transition>, i: nat)
    requires i < |ts|
  {
    && HasState(m, ts[i].dest)
    && (IsNonterminal(ts[i]) ==> HasMachine(net, ts[i].character))
    && forall j :: i < j < |ts| ==> ts[j].character != ts[i].character
  }

  predicate StateTransitionsValid(net: MachineNet, m: Machine, s: State)
  {
    forall i :: 0 <= i < |s.transitions| ==> TransitionValid(net, m, s.transitions, i)
  }

  predicate MachineTransitionsValid(net: MachineNet, m: Machine)
  {
    forall s :: s in m.states ==> StateTransitionsValid(net, m, s)
  }

  predicate TransitionsValid(net: MachineNet)
  {
    forall m :: m in net.machines ==> MachineTransitionsValid(net, m)
  }

  /** The conjunction the seven checks of `validate` compute. */
  predicate ValidNet(net: MachineNet)
  {
    && |net.machines| > 0
    && HasMachine(net, 'S')
    && NotReentrant(net)
    && NonEmptyMachines(net)
    && InitialIffZero(net)
    && AllHaveFinalState(net)
    && TransitionsValid(net)
  }

  // ---------------------------------------------------------------------------
  // The checks

  /** `validate_machine_count`: false exactly when the net has no machines. */
  function ValidateMachineCount(net: MachineNet): (r: bool)
    ensures !r <==> net.machines == []
  {
    |net.machines| != 0
  }

  /** `validate_start`: the axiom, a machine named S, must be present. */
  function ValidateStart(net: MachineNet): (r: bool)
    ensures r <==> exists m :: m in net.machines && m.name == 'S'
  {
    TryLookupMachine(net, 'S').Some?
  }

  /** `validate_not_reentrant`: false exactly when some transition enters a state 0. */
  method ValidateNotReentrant(net: MachineNet) returns (r: bool)
    ensures r <==> NotReentrant(net)
    ensures !r <==> exists m, s, t :: m in net.machines && s in m.states && t in s.transitions && t.dest == 0
  {
    r := true;
    for a := 0 to |net.machines|
      invariant r <==> forall k :: 0 <= k < a ==> MachineNotReentrant(net.machines[k])
    {
      var m := net.machines[a];
      for b := 0 to |m.states|
        invariant r <==> (forall k :: 0 <= k < a ==> MachineNotReentrant(net.machines[k]))
                         && forall j :: 0 <= j < b ==> StateNotReentrant(m.states[j])
      {
        var s := m.states[b];
        for c := 0 to |s.transitions|
          invariant r <==> (forall k :: 0 <= k < a ==> MachineNotReentrant(net.machines[k]))
                           && (forall j :: 0 <= j < b ==> StateNotReentrant(m.states[j]))
                           && forall i :: 0 <= i < c ==> s.transitions[i].dest != 0
        {
          if s.transitions[c].dest == 0 {
            r := false;
          }
        }
      }
    }
  }

  /** `validate_state_count`: false exactly when some machine has no states. */
  method ValidateStateCount(net: MachineNet) returns (r: bool)
    ensures r <==> NonEmptyMachines(net)
  {
    r := true;
    for a := 0 to |net.machines|
      invariant r <==> forall k :: 0 <= k < a ==> |net.machines[k].states| > 0
    {
      if |net.machines[a].states| == 0 {
        r := false;
      }
    }
  }

  /**
   * `validate_single_initial_state`: every initial state has id 0 and every state
   * with id 0 is initial.
   */
  method ValidateSingleInitialState(net: MachineNet) returns (r: bool)
    ensures r <==> InitialIffZero(net)
  {
    r := true;
    for a := 0 to |net.machines|
      invariant r <==> forall k :: 0 <= k < a ==> MachineInitialIffZero(net.machines[k])
    {
      var m := net.machines[a];
      for b := 0 to |m.states|
        invariant r <==> (forall k :: 0 <= k < a ==> MachineInitialIffZero(net.machines[k]))
                         && forall j :: 0 <= j < b ==> StateInitialIffZero(m.states[j])
      {
        var s := m.states[b];
        if s.isInitial && s.id != 0 {
          r := false;
        } else if s.id == 0 && !s.isInitial {
          r := false;
        }
      }
    }
  }

  /** `validate_any_final_state`: false exactly when some machine has no final state. */
  method ValidateAnyFinalState(net: MachineNet) returns (r: bool)
    ensures r <==> AllHaveFinalState(net)
  {
    r := true;
    for a := 0 to |net.machines|
      invariant r <==> forall k :: 0 <= k < a ==> HasFinalState(net.machines[k])
    {
      var m := net.machines[a];
      var any := exists j :: 0 <= j < |m.states| && m.states[j].isFinal;
      assert any <==> HasFinalState(m) by {
        if HasFinalState(m) {
          var s :| s in m.states && s.isFinal;
          var j :| 0 <= j < |m.states| && m.states[j] == s;
        }
      }
      if !any {
        r := false;
      }
    }
  }

  /** The loop of `validate_transitions` over the transitions of one state. */
  method ValidateStateTransitions(net: MachineNet, m: Machine, s: State) returns (r: bool)
    ensures r <==> StateTransitionsValid(net, m, s)
  {
    r := true;
    var ts := s.transitions;
    for i := 0 to |ts|
      invariant r <==> forall k :: 0 <= k < i ==> TransitionValid(net, m, ts, k)
    {
      var t := ts[i];
      var ok := true;
      if TryLookupState(m, t.dest).None? {
        ok := false;
      }
      if IsNonterminal(t) {
        if TryLookupMachine(net, t.character).None? {
          ok := false;
        }
      }
      var unique := true;
      for j := i + 1 to |ts|
        invariant unique <==> forall k :: i < k < j ==> ts[k].character != t.character
      {
        if t.character == ts[j].character {
          unique := false;
        }
      }
      assert ok && unique <==> TransitionValid(net, m, ts, i);
      if !ok || !unique {
        r := false;
      }
    }
  }

  /**
   * `validate_transitions`: false exactly when some transition goes to a missing
   * state, calls a missing machine, or shares its label with a later transition of
   * the same state.
   */
  method ValidateTransitions(net: MachineNet) returns (r: bool)
    ensures r <==> TransitionsValid(net)
  {
    r := true;
    for a := 0 to |net.machines|
      invariant r <==> forall k :: 0 <= k < a ==> MachineTransitionsValid(net, net.machines[k])
    {
      var m := net.machines[a];
      for b := 0 to |m.states|
        invariant r <==> (forall k :: 0 <= k < a ==> MachineTransitionsValid(net, net.machines[k]))
                         && forall j :: 0 <= j < b ==> StateTransitionsValid(net, m, m.states[j])
      {
        var ok := ValidateStateTransitions(net, m, m.states[b]);
        if !ok {
          r := false;
        }
      }
    }
  }

  /** `validate`: all seven checks are evaluated, and the net is valid iff every one holds. */
  method Validate(net: MachineNet) returns (r: bool)
    ensures r <==> ValidNet(net)
  {
    var c1 := ValidateMachineCount(net);
    var c2 := ValidateStart(net);
    var c3 := ValidateNotReentrant(net);
    var c4 := ValidateStateCount(net);
    var c5 := ValidateSingleInitialState(net);
    var c6 := ValidateAnyFinalState(net);
    var c7 := ValidateTransitions(net);
    r := c1 && c2 && c3 && c4 && c5 && c6 && c7;
  }

  // ---------------------------------------------------------------------------
  // What a valid net guarantees, and what it does not

  /**
   * The seven checks admit a net whose axiom has no state 0: machine S with a single
   * final state 1 passes all of them, yet the pilot construction starts by looking up
   * state 0 of S.
   */
  lemma ValidNetMayLackInitialState()
    ensures var net := MachineNet([Machine('S', [State(1, [], false, true)])]);
            ValidNet(net) && !HasNetState(net, 'S', 0)
  {
    var s := State(1, [], false, true);
    var m := Machine('S', [s]);
    var net := MachineNet([m]);
    assert HasMachine(net, 'S') by { assert net.machines[0].name == 'S'; }
    assert HasFinalState(m) by { assert s in m.states; }
    assert LookupMachine(net, 'S') == m;
  }

  /** Every machine has an initial state (the check the machine validator has). */
  predicate AllHaveInitialState(net: MachineNet)
  {
    forall m :: m in net.machines ==> exists s :: s in m.states && s.isInitial
  }

  /** The seven checks plus the presence of an initial state in every machine. */
  predicate ValidNetWithInitialStates(net: MachineNet)
  {
    ValidNet(net) && AllHaveInitialState(net)
  }

  /** `validate` completed with a check that every machine has an initial state. */
  method ValidateWithInitialStates(net: MachineNet) returns (r: bool)
    ensures r <==> ValidNetWithInitialStates(net)
  {
    var seven := Validate(net);
    var initial := true;
    for a := 0 to |net.machines|
      invariant initial <==> forall k :: 0 <= k < a ==> exists s :: s in net.machines[k].states && s.isInitial
    {
      var m := net.machines[a];
      var any := exists j :: 0 <= j < |m.states| && m.states[j].isInitial;
      assert any <==> exists s :: s in m.states && s.isInitial by {
        if exists s :: s in m.states && s.isInitial {
          var s :| s in m.states && s.isInitial;
          var j :| 0 <= j < |m.states| && m.states[j] == s;
        }
      }
      if !any {
        initial := false;
      }
    }
    r := seven && initial;
  }

  /**
   * A net that passes the completed validation is what the pilot construction and the
   * follower search need: every lookup they make succeeds, starting with state 0 of S.
   */
  lemma ValidatedNetIsWellFormed(net: MachineNet)
    requires ValidNetWithInitialStates(net)
    ensures WellFormed(net)
    ensures HasNetState(net, 'S', 0)
  {
    forall name, id | HasNetState(net, name, id)
      ensures StateWellFormed(net, name, id)
    {
      var m := LookupMachine(net, name);
      var s := NetLookupState(net, name, id);
      assert StateTransitionsValid(net, m, s);
      forall t | t in s.transitions
        ensures TransitionWellFormed(net, name, t)
      {
        var i :| 0 <= i < |s.transitions| && s.transitions[i] == t;
        assert TransitionValid(net, m, s.transitions, i);
        if IsNonterminal(t) {
          MachineHasStateZero(net, t.character);
        }
      }
    }
    MachineHasStateZero(net, 'S');
  }

  lemma MachineHasStateZero(net: MachineNet, name: char)
    requires ValidNetWithInitialStates(net) && HasMachine(net, name)
    ensures HasNetState(net, name, 0)
  {
    var m := LookupMachine(net, name);
    var s :| s in m.states && s.isInitial;
    assert StateInitialIffZero(s);
    var j :| 0 <= j < |m.states| && m.states[j] == s;
  }
}
