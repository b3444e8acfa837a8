/**
 * The Berry-Sethi construction: the deterministic recogniser of a numbered regular
 * expression, built from its local sets. A state is labelled by a set of numbered
 * terminals (the ones that may be read next) and a flag saying whether the end of
 * the word may come next; state 0 is labelled by the initial terminals and the
 * nullability of the expression, and reading a character `c` leads to the
 * followers of the terminals numbered `c`.
 */
module BerrySethi {
  import opened Util
  import opened Fsm
  import opened RegLang

  datatype BSLabel = BSLabel(terminals: set<NumTerm>, isFinal: bool)

  datatype BSState = BSState(id: int, stateLabel: BSLabel, transitions: seq<Transition>, isInitial: bool, isFinal: bool)

  /** `BSState::new`: no id yet (-1), no transitions, final exactly when the label says so. */
  function NewState(lab: BSLabel, isInitial: bool): (s: BSState)
    ensures s.stateLabel == lab && s.isInitial == isInitial && s.isFinal == lab.isFinal && s.transitions == []
  {
    BSState(-1, lab, [], isInitial, lab.isFinal)
  }

  /**
   * `collect_transitions`: the characters of the label's terminals, sorted, each
   * once.
   */
  function CollectTransitions(l: BSLabel): (r: seq<char>)
    ensures StrictlyIncreasingChars(r)
    ensures forall c :: c in r <==> exists t :: t in l.terminals && t.c == c
  {
    SortedChars(set t | t in l.terminals :: t.c)
  }

  /**
   * `shift`: the label reached by reading `c`. Its terminals are the followers of
   * the label's terminals named `c`, and it is final when one of those terminals
   * may end the word.
   */
  function Shift(l: BSLabel, c: char, dig: set<(NumTerm, NumTerm)>, fin: set<NumTerm>): (r: BSLabel)
    ensures forall f :: f in r.terminals <==> exists t :: t in l.terminals && t.c == c && (t, f) in dig
    ensures r.isFinal <==> exists t :: t in l.terminals && t.c == c && t in fin
  {
    var mine := set t | t in l.terminals && t.c == c;
    BSLabel(set p | p in dig && p.0 in mine :: p.1, exists t :: t in mine && t in fin)
  }

  /** The second members of the digrams: every terminal that can follow another. */
  function Followers(dig: set<(NumTerm, NumTerm)>): set<NumTerm>
  {
    set p | p in dig :: p.1
  }

  /** A shifted label only holds followers. */
  lemma ShiftWithin(l: BSLabel, c: char, dig: set<(NumTerm, NumTerm)>, fin: set<NumTerm>)
    ensures Shift(l, c, dig, fin).terminals <= Followers(dig)
  {
    forall f | f in Shift(l, c, dig, fin).terminals ensures f in Followers(dig) {
      var t :| t in l.terminals && t.c == c && (t, f) in dig;
      assert (t, f).1 == f;
    }
  }

  /**
   * The states are numbered by position, state 0 carries `init` and is the only
   * initial state, each state is final exactly when its label is, and no two states
   * have the same label.
   */
  ghost predicate StatesOk(states: seq<BSState>, init: BSLabel)
  {
    && |states| > 0 && states[0].stateLabel == init
    && (forall k :: 0 <= k < |states| ==> states[k].id == k)
    && (forall k :: 0 <= k < |states| ==> (states[k].isInitial <==> k == 0))
    && (forall k :: 0 <= k < |states| ==> states[k].isFinal == states[k].stateLabel.isFinal)
    && (forall j, k :: 0 <= j < k < |states| ==> states[j].stateLabel != states[k].stateLabel)
  }

  /**
   * State `k` has its transitions: one per character of `collect_transitions`, in
   * that order, each to the existing state labelled by the shift on that character.
   */
  ghost predicate Expanded(states: seq<BSState>, k: int, dig: set<(NumTerm, NumTerm)>, fin: set<NumTerm>)
  {
    && 0 <= k < |states|
    && var ts := states[k].transitions;
    && var cs := CollectTransitions(states[k].stateLabel);
    && |ts| == |cs|
    && forall i :: 0 <= i < |ts| ==>
         && ts[i].character == cs[i] && 0 <= ts[i].dest < |states|
         && states[ts[i].dest].stateLabel == Shift(states[k].stateLabel, cs[i], dig, fin)
  }

  /** The machine the construction builds, as a value. */
  class BSMachine {
    const name: char
    var states: seq<BSState>

    /** `BSMachine::new`: a named machine without states. */
    constructor (name: char)
      ensures this.name == name && states == []
    {
      this.name := name;
      states := [];
    }

    /** `lookup_state`: the first state with the given id (a missing id is a panic). */
    method LookupState(id: int) returns (s: BSState)
      requires exists k :: 0 <= k < |states| && states[k].id == id
      ensures exists k :: (0 <= k < |states| && states[k] == s && s.id == id
                           && forall j :: 0 <= j < k ==> states[j].id != id)
    {
      var i := 0;
      while states[i].id != id
        invariant 0 <= i < |states|
        invariant forall j :: 0 <= j < i ==> states[j].id != id
        invariant exists k :: i <= k < |states| && states[k].id == id
        decreases |states| - i
      {
        i := i + 1;
      }
      s := states[i];
    }

    /** `lookup_state_mut(id).transitions = ts`: replaces the transitions of the first state with that id. */
    method SetTransitions(id: int, ts: seq<Transition>)
      requires exists k :: 0 <= k < |states| && states[k].id == id
      modifies this
      ensures exists k :: (0 <= k < |old(states)| && old(states)[k].id == id
                           && (forall j :: 0 <= j < k ==> old(states)[j].id != id)
                           && states == old(states)[k := old(states)[k].(transitions := ts)])
    {
      var i := 0;
      while states[i].id != id
        invariant 0 <= i < |states|
        invariant forall j :: 0 <= j < i ==> states[j].id != id
        invariant exists k :: i <= k < |states| && states[k].id == id
        decreases |states| - i
      {
        i := i + 1;
      }
      states := states[i := states[i].(transitions := ts)];
    }

    /**
     * `insert`: the id of the first state with the same label, leaving the states
     * alone; otherwise the state is numbered with the current count and appended.
     */
    method Insert(s: BSState) returns (id: int)
      modifies this
      ensures (exists k :: 0 <= k < |old(states)| && old(states)[k].stateLabel == s.stateLabel) ==>
                && states == old(states)
                && exists k :: (0 <= k < |states| && states[k].stateLabel == s.stateLabel && id == states[k].id
                                && forall j :: 0 <= j < k ==> states[j].stateLabel != s.stateLabel)
      ensures (forall k :: 0 <= k < |old(states)| ==> old(states)[k].stateLabel != s.stateLabel) ==>
                id == |old(states)| && states == old(states) + [s.(id := id)]
    {
      for i := 0 to |states|
        invariant forall j :: 0 <= j < i ==> states[j].stateLabel != s.stateLabel
      {
        if states[i].stateLabel == s.stateLabel {
          return states[i].id;
        }
      }
      id := |states|;
      states := states + [s.(id := id)];
    }
  }

  /** Some transition of `xions` goes to state `k`. */
  predicate Targeted(xions: seq<Transition>, k: int)
  {
    exists i :: 0 <= i < |xions| && xions[i].dest == k
  }

  /**
   * After inserting the targets of the first |xions| shifts: the old states are
   * untouched, each added one has no transitions and is the target of one of the
   * transitions, and each transition carries its character to the state labelled
   * by its shift.
   */
  ghost predicate InsertedSoFar(before: seq<BSState>, after: seq<BSState>, init: BSLabel,
                                shifts: seq<(char, BSLabel)>, xions: seq<Transition>)
  {
    && StatesOk(after, init)
    && |before| <= |after| && after[..|before|] == before
    && (forall k :: |before| <= k < |after| ==> after[k].transitions == [])
    && (forall k :: |before| <= k < |after| ==> Targeted(xions, k))
    && |xions| <= |shifts|
    && (forall i :: 0 <= i < |xions| ==>
          && xions[i].character == shifts[i].0 && 0 <= xions[i].dest < |after|
          && after[xions[i].dest].stateLabel == shifts[i].1)
  }

  /** Inserting a label that is already present keeps everything and points the transition at its state. */
  lemma InsertFound(before: seq<BSState>, mid: seq<BSState>, init: BSLabel, shifts: seq<(char, BSLabel)>,
                    xions: seq<Transition>, id: int, k: nat)
    requires InsertedSoFar(before, mid, init, shifts, xions) && |xions| < |shifts|
    requires k < |mid| && mid[k].stateLabel == shifts[|xions|].1 && id == mid[k].id
    ensures InsertedSoFar(before, mid, init, shifts, xions + [Transition(shifts[|xions|].0, id)])
  {
    var xs := xions + [Transition(shifts[|xions|].0, id)];
    forall j | |before| <= j < |mid| ensures Targeted(xs, j) {
      assert Targeted(xions, j);
      var i :| 0 <= i < |xions| && xions[i].dest == j;
      assert xs[i] == xions[i];
    }
  }

  /** Inserting a new label appends a state without transitions, the target of the new transition. */
  lemma InsertAppended(before: seq<BSState>, mid: seq<BSState>, init: BSLabel, shifts: seq<(char, BSLabel)>,
                       xions: seq<Transition>, s: BSState)
    requires InsertedSoFar(before, mid, init, shifts, xions) && |xions| < |shifts|
    requires s.stateLabel == shifts[|xions|].1 && s.transitions == [] && !s.isInitial && s.isFinal == s.stateLabel.isFinal
    requires forall k :: 0 <= k < |mid| ==> mid[k].stateLabel != s.stateLabel
    ensures InsertedSoFar(before, mid + [s.(id := |mid|)], init, shifts, xions + [Transition(shifts[|xions|].0, |mid|)])
  {
    var after := mid + [s.(id := |mid|)];
    var xs := xions + [Transition(shifts[|xions|].0, |mid|)];
    assert after[..|before|] == mid[..|before|];
    forall j | |before| <= j < |after| ensures Targeted(xs, j) {
      if j < |mid| {
        assert Targeted(xions, j);
      var i :| 0 <= i < |xions| && xions[i].dest == j;
        assert xs[i] == xions[i];
      } else {
        assert xs[|xions|].dest == j;
      }
    }
    forall i | 0 <= i < |xs| ensures after[xs[i].dest].stateLabel == shifts[i].1 {
      if i < |xions| {
        assert xs[i] == xions[i];
      }
    }
  }

  /**
   * The second `map` of `berry_sethi_impl`: inserts a fresh non-initial state for
   * each shifted label and makes the transition to the id `insert` returns.
   */
  method InsertShifts(res: BSMachine, init: BSLabel, shifts: seq<(char, BSLabel)>) returns (xions: seq<Transition>)
    requires StatesOk(res.states, init)
    modifies res
    ensures |xions| == |shifts| && InsertedSoFar(old(res.states), res.states, init, shifts, xions)
  {
    xions := [];
    assert res.states[..|res.states|] == res.states;
    for i := 0 to |shifts|
      invariant |xions| == i && InsertedSoFar(old(res.states), res.states, init, shifts, xions)
    {
      ghost var mid := res.states;
      var newState := NewState(shifts[i].1, false);
      var id := res.Insert(newState);
      if exists k :: 0 <= k < |mid| && mid[k].stateLabel == newState.stateLabel {
        var k :| 0 <= k < |res.states| && res.states[k].stateLabel == newState.stateLabel && id == res.states[k].id;
        InsertFound(old(res.states), mid, init, shifts, xions, id, k);
      } else {
        InsertAppended(old(res.states), mid, init, shifts, xions, newState);
      }
      xions := xions + [Transition(shifts[i].0, id)];
    }
  }

  /** The destinations of a list of transitions, in order. */
  function Dests(xions: seq<Transition>): (r: seq<int>)
    ensures |r| == |xions| && forall i :: 0 <= i < |xions| ==> r[i] == xions[i].dest
  {
    seq(|xions|, i requires 0 <= i < |xions| => xions[i].dest)
  }

  /** Some character shifts the label `l` to the label of `s`. */
  ghost predicate ShiftedFrom(s: BSState, l: BSLabel, dig: set<(NumTerm, NumTerm)>, fin: set<NumTerm>)
  {
    exists c :: s.stateLabel == Shift(l, c, dig, fin)
  }

  /**
   * Expanding state `k` appended new states without transitions, each the target
   * of one of `destIds` and labelled by a shift of `k`, set the transitions of `k`
   * and left the rest alone.
   */
  ghost predicate ExpandOutcome(before: seq<BSState>, after: seq<BSState>, init: BSLabel, k: int, destIds: seq<int>,
                                dig: set<(NumTerm, NumTerm)>, fin: set<NumTerm>)
  {
    && StatesOk(after, init)
    && 0 <= k < |before| <= |after|
    && (forall j :: 0 <= j < |before| ==> after[j].stateLabel == before[j].stateLabel)
    && (forall j :: 0 <= j < |before| && j != k ==> after[j] == before[j])
    && (forall j :: |before| <= j < |after| ==> after[j].transitions == [])
    && (forall j :: |before| <= j < |after| ==> j in destIds)
    && (forall j :: j in destIds ==> 0 <= j < |after|)
    && (forall j :: |before| <= j < |after| ==> ShiftedFrom(after[j], before[k].stateLabel, dig, fin))
    && Expanded(after, k, dig, fin)
  }

  /** One round of the worklist loop on a state that was not visited yet. */
  method ExpandState(res: BSMachine, init: BSLabel, stateId: int, dig: set<(NumTerm, NumTerm)>, fin: set<NumTerm>)
    returns (destIds: seq<int>)
    requires StatesOk(res.states, init) && 0 <= stateId < |res.states|
    modifies res
    ensures ExpandOutcome(old(res.states), res.states, init, stateId, destIds, dig, fin)
  {
    ghost var before := res.states;
    assert res.states[stateId].id == stateId;
    var state := res.LookupState(stateId);
    assert state == before[stateId];
    var futureXions := CollectTransitions(state.stateLabel);
    var shifts := seq(|futureXions|, i requires 0 <= i < |futureXions| => (futureXions[i], Shift(state.stateLabel, futureXions[i], dig, fin)));
    var xions := InsertShifts(res, init, shifts);
    ghost var mid := res.states;
    destIds := Dests(xions);
    assert mid[stateId] == before[stateId];
    assert mid[stateId].id == stateId;
    res.SetTransitions(stateId, xions);
    assert res.states == mid[stateId := mid[stateId].(transitions := xions)];
    ReplaceTransitionsOk(mid, res.states, init, stateId, xions);
    NewTargets(before, mid, init, stateId, shifts, xions, dig, fin);
    ExpandedAfter(before, mid, res.states, init, stateId, shifts, xions, dig, fin);
  }

  /** Setting the transitions of one state keeps the states consistent and every label. */
  lemma ReplaceTransitionsOk(mid: seq<BSState>, after: seq<BSState>, init: BSLabel, k: int, xions: seq<Transition>)
    requires StatesOk(mid, init) && 0 <= k < |mid|
    requires after == mid[k := mid[k].(transitions := xions)]
    ensures StatesOk(after, init)
    ensures forall j :: 0 <= j < |mid| ==> after[j].stateLabel == mid[j].stateLabel
  {
  }

  /** The states the shifts added are each the target of a transition, labelled by a shift of `k`. */
  lemma NewTargets(before: seq<BSState>, mid: seq<BSState>, init: BSLabel, k: int,
                   shifts: seq<(char, BSLabel)>, xions: seq<Transition>,
                   dig: set<(NumTerm, NumTerm)>, fin: set<NumTerm>)
    requires 0 <= k < |before|
    requires forall i :: 0 <= i < |shifts| ==> shifts[i].1 == Shift(before[k].stateLabel, shifts[i].0, dig, fin)
    requires |xions| == |shifts| && InsertedSoFar(before, mid, init, shifts, xions)
    ensures forall j :: |before| <= j < |mid| ==> j in Dests(xions) && ShiftedFrom(mid[j], before[k].stateLabel, dig, fin)
    ensures forall j :: j in Dests(xions) ==> 0 <= j < |mid|
  {
    var ds := Dests(xions);
    forall j | |before| <= j < |mid| ensures j in ds && ShiftedFrom(mid[j], before[k].stateLabel, dig, fin) {
      assert Targeted(xions, j);
      var i :| 0 <= i < |xions| && xions[i].dest == j;
      assert ds[i] == j;
      assert mid[j].stateLabel == Shift(before[k].stateLabel, shifts[i].0, dig, fin);
    }
    forall j | j in ds ensures 0 <= j < |mid| {
      var i :| 0 <= i < |ds| && ds[i] == j;
      assert j == xions[i].dest;
    }
  }

  /** State `k` is expanded once it has the transitions to the shifted labels. */
  lemma ExpandedAfter(before: seq<BSState>, mid: seq<BSState>, after: seq<BSState>, init: BSLabel, k: int,
                      shifts: seq<(char, BSLabel)>, xions: seq<Transition>,
                      dig: set<(NumTerm, NumTerm)>, fin: set<NumTerm>)
    requires 0 <= k < |before|
    requires |shifts| == |CollectTransitions(before[k].stateLabel)|
    requires forall i :: 0 <= i < |shifts| ==>
               shifts[i] == (CollectTransitions(before[k].stateLabel)[i],
                             Shift(before[k].stateLabel, CollectTransitions(before[k].stateLabel)[i], dig, fin))
    requires |xions| == |shifts| && InsertedSoFar(before, mid, init, shifts, xions)
    requires after == mid[k := mid[k].(transitions := xions)]
    ensures Expanded(after, k, dig, fin)
  {
    assert mid[k] == before[k];
    var l := before[k].stateLabel;
    assert after[k].stateLabel == l && after[k].transitions == xions;
    forall i | 0 <= i < |xions|
      ensures after[xions[i].dest].stateLabel == Shift(l, CollectTransitions(l)[i], dig, fin)
    {
      assert after[xions[i].dest].stateLabel == mid[xions[i].dest].stateLabel;
    }
  }

  /**
   * The worklist invariant: the states are consistent and hold only terminals of
   * `u`, the worklist and the visited set name states, every state is visited or
   * waiting, visited states are expanded and the others have no transitions yet.
   */
  ghost predicate BuildInv(states: seq<BSState>, init: BSLabel, u: set<NumTerm>, worklist: seq<int>, visited: set<int>,
                           dig: set<(NumTerm, NumTerm)>, fin: set<NumTerm>)
  {
    && StatesOk(states, init)
    && (forall k :: 0 <= k < |states| ==> states[k].stateLabel.terminals <= u)
    && (forall i :: 0 <= i < |worklist| ==> 0 <= worklist[i] < |states|)
    && (forall d :: d in visited ==> 0 <= d < |states|)
    && (forall k :: 0 <= k < |states| ==> k in visited || k in worklist)
    && (forall k :: k in visited ==> Expanded(states, k, dig, fin))
    && (forall k :: 0 <= k < |states| && k !in visited ==> states[k].transitions == [])
  }

  /** Popping an already visited id changes nothing else. */
  lemma BuildSkip(states: seq<BSState>, init: BSLabel, u: set<NumTerm>, worklist: seq<int>, visited: set<int>,
                  dig: set<(NumTerm, NumTerm)>, fin: set<NumTerm>)
    requires BuildInv(states, init, u, worklist, visited, dig, fin) && |worklist| > 0 && worklist[0] in visited
    ensures BuildInv(states, init, u, worklist[1..], visited, dig, fin)
  {
    forall k | 0 <= k < |states| && k !in visited ensures k in worklist[1..] {
      var i :| 0 <= i < |worklist| && worklist[i] == k;
      assert worklist[1..][i - 1] == k;
    }
  }

  /** Expansion only depends on the labels, so it survives appending states and setting other transitions. */
  lemma ExpandedStable(before: seq<BSState>, after: seq<BSState>, k: int, dig: set<(NumTerm, NumTerm)>, fin: set<NumTerm>)
    requires Expanded(before, k, dig, fin) && |before| <= |after|
    requires forall j :: 0 <= j < |before| ==> after[j].stateLabel == before[j].stateLabel
    requires after[k] == before[k]
    ensures Expanded(after, k, dig, fin)
  {
  }

  /** The added states hold followers only. */
  lemma StepWithin(states: seq<BSState>, states': seq<BSState>, init: BSLabel, u: set<NumTerm>, k: int,
                   destIds: seq<int>, dig: set<(NumTerm, NumTerm)>, fin: set<NumTerm>)
    requires forall j :: 0 <= j < |states| ==> states[j].stateLabel.terminals <= u
    requires Followers(dig) <= u
    requires ExpandOutcome(states, states', init, k, destIds, dig, fin)
    ensures forall j :: 0 <= j < |states'| ==> states'[j].stateLabel.terminals <= u
  {
    forall j | 0 <= j < |states'| ensures states'[j].stateLabel.terminals <= u {
      if j >= |states| {
        var c :| states'[j].stateLabel == Shift(states[k].stateLabel, c, dig, fin);
        ShiftWithin(states[k].stateLabel, c, dig, fin);
      }
    }
  }

  /** The ids left in the worklist and the appended targets all name states. */
  lemma StepWorklist(worklist: seq<int>, destIds: seq<int>, n: nat, n': nat)
    requires |worklist| > 0 && n <= n'
    requires forall i :: 0 <= i < |worklist| ==> 0 <= worklist[i] < n
    requires forall j :: j in destIds ==> 0 <= j < n'
    ensures forall i :: 0 <= i < |worklist[1..] + destIds| ==> 0 <= (worklist[1..] + destIds)[i] < n'
  {
    var w := worklist[1..] + destIds;
    forall i | 0 <= i < |w| ensures 0 <= w[i] < n' {
      if i < |worklist| - 1 {
        assert w[i] == worklist[i + 1];
      } else {
        assert w[i] == destIds[i - (|worklist| - 1)];
        assert destIds[i - (|worklist| - 1)] in destIds;
      }
    }
  }

  /** Every state is still visited or waiting. */
  lemma StepCoverage(worklist: seq<int>, destIds: seq<int>, visited: set<int>, n: nat, n': nat)
    requires |worklist| > 0 && n <= n'
    requires forall j :: 0 <= j < n ==> j in visited || j in worklist
    requires forall j :: n <= j < n' ==> j in destIds
    ensures forall j :: 0 <= j < n' ==> j in visited + {worklist[0]} || j in worklist[1..] + destIds
  {
    var w := worklist[1..] + destIds;
    forall j | 0 <= j < n' && j !in visited + {worklist[0]} ensures j in w {
      if j < n {
        var i :| 0 <= i < |worklist| && worklist[i] == j;
        assert w[i - 1] == j;
      } else {
        assert j in destIds;
        var i :| 0 <= i < |destIds| && destIds[i] == j;
        assert w[|worklist| - 1 + i] == j;
      }
    }
  }

  /** Expanding the first waiting state keeps the invariant. */
  lemma BuildStep(states: seq<BSState>, states': seq<BSState>, init: BSLabel, u: set<NumTerm>, worklist: seq<int>,
                  visited: set<int>, destIds: seq<int>, dig: set<(NumTerm, NumTerm)>, fin: set<NumTerm>)
    requires BuildInv(states, init, u, worklist, visited, dig, fin) && |worklist| > 0 && worklist[0] !in visited
    requires Followers(dig) <= u
    requires ExpandOutcome(states, states', init, worklist[0], destIds, dig, fin)
    ensures BuildInv(states', init, u, worklist[1..] + destIds, visited + {worklist[0]}, dig, fin)
  {
    var k := worklist[0];
    StepWithin(states, states', init, u, k, destIds, dig, fin);
    StepWorklist(worklist, destIds, |states|, |states'|);
    StepCoverage(worklist, destIds, visited, |states|, |states'|);
    forall j | j in visited + {k} ensures Expanded(states', j, dig, fin) {
      if j != k {
        ExpandedStable(states, states', j, dig, fin);
      }
    }
  }

  /** The terminal sets of the first `n` states whose final flag is `flag`. */
  ghost function FlagFamily(states: seq<BSState>, n: nat, flag: bool): set<set<NumTerm>>
    requires n <= |states|
  {
    if n == 0 then {}
    else FlagFamily(states, n - 1, flag) + (if states[n - 1].stateLabel.isFinal == flag then {states[n - 1].stateLabel.terminals} else {})
  }

  lemma {:induction false} FlagFamilyMembers(states: seq<BSState>, n: nat, flag: bool, x: set<NumTerm>)
    requires n <= |states|
    ensures x in FlagFamily(states, n, flag) <==> exists k :: 0 <= k < n && states[k].stateLabel == BSLabel(x, flag)
  {
    if n > 0 {
      FlagFamilyMembers(states, n - 1, flag, x);
      if states[n - 1].stateLabel == BSLabel(x, flag) {
        assert x in FlagFamily(states, n, flag);
      }
    }
  }

  /** With distinct labels, the two families together have one member per state. */
  lemma {:induction false} FlagFamilyCard(states: seq<BSState>, n: nat)
    requires n <= |states|
    requires forall j, k :: 0 <= j < k < |states| ==> states[j].stateLabel != states[k].stateLabel
    ensures |FlagFamily(states, n, true)| + |FlagFamily(states, n, false)| == n
  {
    if n > 0 {
      FlagFamilyCard(states, n - 1);
      var l := states[n - 1].stateLabel;
      FlagFamilyMembers(states, n - 1, l.isFinal, l.terminals);
    }
  }

  /**
   * There are at most 2 * 2^|u| states when every label holds terminals of `u`:
   * the labels are distinct, and those with the same final flag have distinct
   * terminal sets.
   */
  lemma StatesBound(states: seq<BSState>, init: BSLabel, u: set<NumTerm>)
    requires StatesOk(states, init)
    requires forall k :: 0 <= k < |states| ==> states[k].stateLabel.terminals <= u
    ensures |states| <= 2 * Pow2(|u|)
  {
    FlagFamilyCard(states, |states|);
    forall flag: bool | true ensures |FlagFamily(states, |states|, flag)| <= Pow2(|u|) {
      forall x | x in FlagFamily(states, |states|, flag) ensures x <= u {
        FlagFamilyMembers(states, |states|, flag, x);
      }
      FamilyBound(FlagFamily(states, |states|, flag), u);
    }
  }

  /** The first `insert` into the empty machine sets up the invariant. */
  lemma BuildStart(states: seq<BSState>, init: BSLabel, u: set<NumTerm>, dig: set<(NumTerm, NumTerm)>, fin: set<NumTerm>)
    requires init.terminals <= u
    requires states == [NewState(init, true).(id := 0)]
    ensures BuildInv(states, init, u, [0], {}, dig, fin)
  {
  }

  /**
   * `berry_sethi_impl`: starts from state 0 labelled by the initial terminals and
   * the nullability, and expands states from a first-in first-out worklist until
   * every state reached has its transitions. State 0 is the only initial state,
   * the states are numbered by position, final exactly when their label is, carry
   * distinct labels and are all expanded, and there are at most 2 * 2^|U| of them,
   * U being the initial terminals and the followers.
   */
  method BerrySethiImpl(ini: set<NumTerm>, dig: set<(NumTerm, NumTerm)>, fin: set<NumTerm>, nullable: bool)
    returns (res: BSMachine)
    ensures fresh(res) && res.name == 'b'
    ensures StatesOk(res.states, BSLabel(ini, nullable))
    ensures forall k :: 0 <= k < |res.states| ==> Expanded(res.states, k, dig, fin)
    ensures |res.states| <= 2 * Pow2(|ini + Followers(dig)|)
  {
    res := new BSMachine('b');
    var initLabel := BSLabel(ini, nullable);
    ghost var u := ini + Followers(dig);
    var first := res.Insert(NewState(initLabel, true));
    BuildStart(res.states, initLabel, u, dig, fin);
    var worklist := [first];
    var visited: set<int> := {};
    StatesBound(res.states, initLabel, u);
    while |worklist| > 0
      invariant BuildInv(res.states, initLabel, u, worklist, visited, dig, fin)
      invariant |visited| <= |res.states| <= 2 * Pow2(|u|)
      decreases 2 * Pow2(|u|) - |visited|, |worklist|
    {
      var stateId := worklist[0];
      if stateId in visited {
        BuildSkip(res.states, initLabel, u, worklist, visited, dig, fin);
        worklist := worklist[1..];
      } else {
        ghost var before := res.states;
        var destIds := ExpandState(res, initLabel, stateId, dig, fin);
        BuildStep(before, res.states, initLabel, u, worklist, visited, destIds, dig, fin);
        worklist := worklist[1..] + destIds;
        visited := visited + {stateId};
        RangeCard(visited, |res.states|);
        StatesBound(res.states, initLabel, u);
      }
    }
  }

  /** `berry_sethi`: the construction on the local sets of an expression. */
  method BerrySethi(x: LocalSets) returns (res: BSMachine)
    ensures fresh(res) && res.name == 'b'
    ensures StatesOk(res.states, BSLabel(x.initials, x.nullable))
    ensures forall k :: 0 <= k < |res.states| ==> Expanded(res.states, k, x.digrams, x.finals)
    ensures |res.states| <= 2 * Pow2(|x.initials + Followers(x.digrams)|)
  {
    res := BerrySethiImpl(x.initials, x.digrams, x.finals, x.nullable);
  }

  /**
   * An expanded state's transitions are strictly increasing by character and lead
   * to existing states: the recogniser is deterministic.
   */
  lemma ExpandedDeterministic(states: seq<BSState>, k: int, dig: set<(NumTerm, NumTerm)>, fin: set<NumTerm>)
    requires Expanded(states, k, dig, fin)
    ensures forall i, j :: 0 <= i < j < |states[k].transitions| ==>
              states[k].transitions[i].character < states[k].transitions[j].character
    ensures forall t :: t in states[k].transitions ==> 0 <= t.dest < |states|
  {
    var cs := CollectTransitions(states[k].stateLabel);
    assert StrictlyIncreasingChars(cs);
  }

  /** An expanded state has a transition on `c` exactly when one of its terminals is named `c`. */
  lemma ExpandedLabels(states: seq<BSState>, k: int, dig: set<(NumTerm, NumTerm)>, fin: set<NumTerm>, c: char)
    requires Expanded(states, k, dig, fin)
    ensures (exists i :: 0 <= i < |states[k].transitions| && states[k].transitions[i].character == c) <==>
              exists n :: n in states[k].stateLabel.terminals && n.c == c
  {
    var cs := CollectTransitions(states[k].stateLabel);
    if exists n :: n in states[k].stateLabel.terminals && n.c == c {
      assert c in cs;
      var i :| 0 <= i < |cs| && cs[i] == c;
      assert states[k].transitions[i].character == c;
    }
    if exists i :: 0 <= i < |states[k].transitions| && states[k].transitions[i].character == c {
      var i :| 0 <= i < |states[k].transitions| && states[k].transitions[i].character == c;
      assert cs[i] in cs;
    }
  }

  /**
   * The transition of an expanded state on `c` leads to the state holding the
   * followers of its terminals named `c`, final when one of those may end the word.
   */
  lemma ExpandedTarget(states: seq<BSState>, k: int, dig: set<(NumTerm, NumTerm)>, fin: set<NumTerm>, i: nat)
    requires Expanded(states, k, dig, fin) && i < |states[k].transitions|
    ensures var t := states[k].transitions[i];
      && (forall f :: f in states[t.dest].stateLabel.terminals <==>
                     exists n :: n in states[k].stateLabel.terminals && n.c == t.character && (n, f) in dig)
      && (states[t.dest].stateLabel.isFinal <==>
            exists n :: n in states[k].stateLabel.terminals && n.c == t.character && n in fin)
  {
  }
}
