/**
 * The three conflict detectors run on every state of an ELR(1) pilot, and the
 * count behind the "no conflicts" verdict.
 *
 * A shift-reduce conflict is a final candidate whose lookahead also labels an
 * outgoing transition; a reduce-reduce conflict is a pair of final candidates with
 * the same lookahead; a convergence conflict is a pair of source candidates that a
 * transition shifts onto the same destination candidate.
 */
module ElrConflicts {
  import opened Mnet
  import opened MnetValidation
  import opened ElrPilot

  datatype ShiftReduceConflict = ShiftReduceConflict(stateId: int, candidateIdx: nat)

  datatype ReduceReduceConflict = ReduceReduceConflict(stateId: int, candidate1Idx: nat, candidate2Idx: nat)

  datatype ConvergenceConflict = ConvergenceConflict(state1Id: int, candidate11Idx: nat, candidate12Idx: nat,
                                                     transitionChar: char, state2Id: int, candidate2Idx: nat)

  // ---------------------------------------------------------------------------
  // Shift-reduce

  /** The labels of the outgoing transitions (the `outgoing` hash set). */
  function OutgoingLabels(s: PilotState): (r: set<char>)
    ensures forall ch :: ch in r <==> HasLabel(s.transitions, ch)
  {
    var r := set t | t in s.transitions :: t.character;
    assert forall ch :: HasLabel(s.transitions, ch) ==> ch in r by {
      forall ch | HasLabel(s.transitions, ch) ensures ch in r {
        var i :| 0 <= i < |s.transitions| && s.transitions[i].character == ch;
        assert s.transitions[i] in s.transitions;
      }
    }
    r
  }

  /** Candidate `i` is final and its lookahead labels an outgoing transition. */
  predicate ShiftReduceAt(s: PilotState, i: nat)
    requires i < |s.candidates|
  {
    s.candidates[i].isFinal && HasLabel(s.transitions, s.candidates[i].lookahead)
  }

  /**
   * The conflicts among the first `n` candidates, in index order: exactly the
   * indices below `n` with a shift-reduce conflict, ascending, tagged with the
   * state's id.
   */
  function ShiftReduceUpTo(s: PilotState, outgoing: set<char>, n: nat): (r: seq<ShiftReduceConflict>)
    requires n <= |s.candidates|
    requires forall ch :: ch in outgoing <==> HasLabel(s.transitions, ch)
    ensures forall k :: 0 <= k < |r| ==> (r[k].stateId == s.id && r[k].candidateIdx < n
                                          && ShiftReduceAt(s, r[k].candidateIdx))
    ensures forall i :: 0 <= i < n && ShiftReduceAt(s, i) ==> exists k :: 0 <= k < |r| && r[k].candidateIdx == i
    ensures forall a, b :: 0 <= a < b < |r| ==> r[a].candidateIdx < r[b].candidateIdx
  {
    if n == 0 then []
    else
      var prev := ShiftReduceUpTo(s, outgoing, n - 1);
      var c := s.candidates[n - 1];
      if c.isFinal && c.lookahead in outgoing then
        var r := prev + [ShiftReduceConflict(s.id, n - 1)];
        assert forall k :: 0 <= k < |prev| ==> r[k] == prev[k];
        assert r[|prev|].candidateIdx == n - 1;
        r
      else prev
  }

  /** `shift_reduce_conflicts`: the filter of the candidate indices. */
  function ShiftReduceConflicts(s: PilotState): (r: seq<ShiftReduceConflict>)
    ensures forall k :: 0 <= k < |r| ==> (r[k].stateId == s.id && r[k].candidateIdx < |s.candidates|
                                          && ShiftReduceAt(s, r[k].candidateIdx))
    ensures forall i :: 0 <= i < |s.candidates| && ShiftReduceAt(s, i) ==>
              exists k :: 0 <= k < |r| && r[k].candidateIdx == i
    ensures forall a, b :: 0 <= a < b < |r| ==> r[a].candidateIdx < r[b].candidateIdx
  {
    ShiftReduceUpTo(s, OutgoingLabels(s), |s.candidates|)
  }

  // ---------------------------------------------------------------------------
  // Reduce-reduce

  /** Candidates `i` and `j` are both final and have the same lookahead. */
  predicate ReduceReduceAt(s: PilotState, i: nat, j: nat)
    requires i < |s.candidates| && j < |s.candidates|
  {
    var ci := s.candidates[i];
    var cj := s.candidates[j];
    ci.isFinal && cj.isFinal && ci.lookahead == cj.lookahead
  }

  /** The conflicts (i, j') for i < j' < j, in order of j'. */
  function ReduceReduceRow(s: PilotState, i: nat, j: nat): seq<ReduceReduceConflict>
    requires i < |s.candidates| && j <= |s.candidates|
  {
    if j <= i + 1 then []
    else
      ReduceReduceRow(s, i, j - 1)
      + (if ReduceReduceAt(s, i, j - 1) then [ReduceReduceConflict(s.id, i, j - 1)] else [])
  }

  /** The conflicts whose first index is below `n`, in the order of the nested loops. */
  function ReduceReduceUpTo(s: PilotState, n: nat): seq<ReduceReduceConflict>
    requires n <= |s.candidates|
  {
    if n == 0 then [] else ReduceReduceUpTo(s, n - 1) + ReduceReduceRow(s, n - 1, |s.candidates|)
  }

  /** `reduce_reduce_conflicts`: the two nested loops over index pairs. */
  method ReduceReduceConflicts(s: PilotState) returns (res: seq<ReduceReduceConflict>)
    ensures res == ReduceReduceUpTo(s, |s.candidates|)
  {
    res := [];
    for i := 0 to |s.candidates|
      invariant res == ReduceReduceUpTo(s, i)
    {
      for j := i + 1 to |s.candidates|
        invariant res == ReduceReduceUpTo(s, i) + ReduceReduceRow(s, i, j)
      {
        var ci := s.candidates[i];
        var cj := s.candidates[j];
        if ci.isFinal && cj.isFinal && ci.lookahead == cj.lookahead {
          res := res + [ReduceReduceConflict(s.id, i, j)];
        }
      }
    }
  }

  /** The conflicts of a row are exactly its conflicting pairs. */
  lemma {:induction false} ReduceReduceRowMembers(s: PilotState, i: nat, j: nat, c: ReduceReduceConflict)
    requires i < |s.candidates| && j <= |s.candidates|
    ensures c in ReduceReduceRow(s, i, j) <==>
              (c.stateId == s.id && c.candidate1Idx == i && i < c.candidate2Idx < j
               && ReduceReduceAt(s, i, c.candidate2Idx))
  {
    if j > i + 1 {
      ReduceReduceRowMembers(s, i, j - 1, c);
    }
  }

  /** The reported conflicts are exactly the pairs i < j of final candidates with equal lookahead. */
  lemma {:induction false} ReduceReduceMembers(s: PilotState, n: nat, c: ReduceReduceConflict)
    requires n <= |s.candidates|
    ensures c in ReduceReduceUpTo(s, n) <==>
              (c.stateId == s.id && c.candidate1Idx < n && c.candidate1Idx < c.candidate2Idx < |s.candidates|
               && ReduceReduceAt(s, c.candidate1Idx, c.candidate2Idx))
  {
    if n > 0 {
      ReduceReduceMembers(s, n - 1, c);
      ReduceReduceRowMembers(s, n - 1, |s.candidates|, c);
      assert c in ReduceReduceUpTo(s, n) <==>
               c in ReduceReduceUpTo(s, n - 1) || c in ReduceReduceRow(s, n - 1, |s.candidates|);
    }
  }

  // ---------------------------------------------------------------------------
  // Convergence

  /** The conflict reported for positions `p` and `q` of the map of transition `t`. */
  function ConvergenceEntry(s: PilotState, t: PilotTransition, p: nat, q: nat): ConvergenceConflict
    requires p < |t.candidateMap| && q < |t.candidateMap|
  {
    ConvergenceConflict(s.id, t.candidateMap[p].0, t.candidateMap[q].0, t.character, t.destId, t.candidateMap[p].1)
  }

  /** The conflicts (p, q') for p < q' < q, in order of q'. */
  function ConvergenceRow(s: PilotState, t: PilotTransition, p: nat, q: nat): seq<ConvergenceConflict>
    requires p < |t.candidateMap| && q <= |t.candidateMap|
  {
    if q <= p + 1 then []
    else
      ConvergenceRow(s, t, p, q - 1)
      + (if t.candidateMap[p].1 == t.candidateMap[q - 1].1 then [ConvergenceEntry(s, t, p, q - 1)] else [])
  }

  /** The conflicts of transition `t` whose first position is below `n`. */
  function ConvergenceOf(s: PilotState, t: PilotTransition, n: nat): seq<ConvergenceConflict>
    requires n <= |t.candidateMap|
  {
    if n == 0 then [] else ConvergenceOf(s, t, n - 1) + ConvergenceRow(s, t, n - 1, |t.candidateMap|)
  }

  /** The conflicts of the first `a` transitions, in the order of the loops. */
  function ConvergenceUpTo(s: PilotState, a: nat): seq<ConvergenceConflict>
    requires a <= |s.transitions|
  {
    if a == 0 then []
    else ConvergenceUpTo(s, a - 1) + ConvergenceOf(s, s.transitions[a - 1], |s.transitions[a - 1].candidateMap|)
  }

  /** `convergence_conflicts`: for each transition, every pair of map positions with equal destination. */
  method ConvergenceConflicts(s: PilotState) returns (res: seq<ConvergenceConflict>)
    ensures res == ConvergenceUpTo(s, |s.transitions|)
  {
    res := [];
    for a := 0 to |s.transitions|
      invariant res == ConvergenceUpTo(s, a)
    {
      var t := s.transitions[a];
      var cmap := t.candidateMap;
      for p := 0 to |cmap|
        invariant res == ConvergenceUpTo(s, a) + ConvergenceOf(s, t, p)
      {
        for q := p + 1 to |cmap|
          invariant res == ConvergenceUpTo(s, a) + ConvergenceOf(s, t, p) + ConvergenceRow(s, t, p, q)
        {
          if cmap[p].1 == cmap[q].1 {
            res := res + [ConvergenceConflict(s.id, cmap[p].0, cmap[q].0, t.character, t.destId, cmap[p].1)];
          }
        }
      }
    }
  }

  /** Transition `a` sends map positions `p < q` to the same destination and `c` is their conflict. */
  predicate ConvergesAt(s: PilotState, a: nat, p: nat, q: nat, c: ConvergenceConflict)
  {
    && a < |s.transitions|
    && p < q < |s.transitions[a].candidateMap|
    && s.transitions[a].candidateMap[p].1 == s.transitions[a].candidateMap[q].1
    && c == ConvergenceEntry(s, s.transitions[a], p, q)
  }

  lemma {:induction false} ConvergenceRowMembers(s: PilotState, a: nat, p: nat, q: nat, c: ConvergenceConflict)
    requires a < |s.transitions|
    requires p < |s.transitions[a].candidateMap| && q <= |s.transitions[a].candidateMap|
    ensures c in ConvergenceRow(s, s.transitions[a], p, q) <==> exists q': nat :: p < q' < q && ConvergesAt(s, a, p, q', c)
  {
    if q > p + 1 {
      ConvergenceRowMembers(s, a, p, q - 1, c);
      var t := s.transitions[a];
      if exists q': nat :: p < q' < q && ConvergesAt(s, a, p, q', c) {
        var q': nat :| p < q' < q && ConvergesAt(s, a, p, q', c);
        if q' < q - 1 {
          assert exists q'': nat :: p < q'' < q - 1 && ConvergesAt(s, a, p, q'', c);
        }
      }
      if c in ConvergenceRow(s, t, p, q) && c !in ConvergenceRow(s, t, p, q - 1) {
        assert ConvergesAt(s, a, p, q - 1, c);
      }
    }
  }

  lemma {:induction false} ConvergenceOfMembers(s: PilotState, a: nat, n: nat, c: ConvergenceConflict)
    requires a < |s.transitions| && n <= |s.transitions[a].candidateMap|
    ensures c in ConvergenceOf(s, s.transitions[a], n) <==> exists p: nat, q: nat :: p < n && ConvergesAt(s, a, p, q, c)
  {
    if n > 0 {
      ConvergenceOfMembers(s, a, n - 1, c);
      ConvergenceRowMembers(s, a, n - 1, |s.transitions[a].candidateMap|, c);
    }
  }

  /**
   * The reported conflicts are exactly one per transition and pair of map
   * positions p < q with equal destination index, carrying both source indices,
   * the label, the destination id and the shared destination index.
   */
  lemma {:induction false} ConvergenceMembers(s: PilotState, n: nat, c: ConvergenceConflict)
    requires n <= |s.transitions|
    ensures c in ConvergenceUpTo(s, n) <==> exists a: nat, p: nat, q: nat :: a < n && ConvergesAt(s, a, p, q, c)
  {
    if n > 0 {
      ConvergenceMembers(s, n - 1, c);
      ConvergenceOfMembers(s, n - 1, |s.transitions[n - 1].candidateMap|, c);
    }
  }

  // ---------------------------------------------------------------------------
  // Properties

  /** A shift-reduce or reduce-reduce conflict names a final candidate. */
  lemma ConflictNeedsFinal(s: PilotState)
    ensures ShiftReduceConflicts(s) != [] ==> exists c :: c in s.candidates && c.isFinal
    ensures ReduceReduceUpTo(s, |s.candidates|) != [] ==> exists c :: c in s.candidates && c.isFinal
  {
    var r := ShiftReduceConflicts(s);
    if r != [] {
      assert s.candidates[r[0].candidateIdx] in s.candidates;
    }
    var rr := ReduceReduceUpTo(s, |s.candidates|);
    if rr != [] {
      ReduceReduceMembers(s, |s.candidates|, rr[0]);
      assert s.candidates[rr[0].candidate1Idx] in s.candidates;
    }
  }

  /** A state with no final candidate has neither shift-reduce nor reduce-reduce conflicts. */
  lemma NoFinalNoConflicts(s: PilotState)
    requires forall c :: c in s.candidates ==> !c.isFinal
    ensures ShiftReduceConflicts(s) == []
    ensures ReduceReduceUpTo(s, |s.candidates|) == []
  {
    ConflictNeedsFinal(s);
  }

  /** A convergence conflict of transition `a` names two map positions with the same target. */
  lemma ConvergenceNeedsSharedTarget(s: PilotState, a: nat)
    requires a < |s.transitions|
    ensures ConvergenceOf(s, s.transitions[a], |s.transitions[a].candidateMap|) != [] ==>
              exists p, q :: (0 <= p < q < |s.transitions[a].candidateMap|
                              && s.transitions[a].candidateMap[p].1 == s.transitions[a].candidateMap[q].1)
  {
    var r := ConvergenceOf(s, s.transitions[a], |s.transitions[a].candidateMap|);
    if r != [] {
      ConvergenceOfMembers(s, a, |s.transitions[a].candidateMap|, r[0]);
    }
  }

  /** A transition whose map sends no two sources to the same place is free of convergence conflicts. */
  lemma DistinctTargetsNoConvergence(s: PilotState, a: nat)
    requires a < |s.transitions|
    requires forall p, q :: (0 <= p < q < |s.transitions[a].candidateMap| ==>
                             s.transitions[a].candidateMap[p].1 != s.transitions[a].candidateMap[q].1)
    ensures ConvergenceOf(s, s.transitions[a], |s.transitions[a].candidateMap|) == []
  {
    ConvergenceNeedsSharedTarget(s, a);
  }

  /** Reduce-reduce conflicts name two candidates of the state itself. */
  lemma ReduceReduceInRange(s: PilotState)
    ensures forall c :: c in ReduceReduceUpTo(s, |s.candidates|) ==>
              c.stateId == s.id && c.candidate1Idx < c.candidate2Idx < |s.candidates|
  {
    forall c | c in ReduceReduceUpTo(s, |s.candidates|)
      ensures c.stateId == s.id && c.candidate1Idx < c.candidate2Idx < |s.candidates|
    {
      ReduceReduceMembers(s, |s.candidates|, c);
    }
  }

  /**
   * On a state of a pilot built by `create_pilot` over a net that never re-enters a
   * state 0, every index a convergence conflict reports lies within the state it is
   * looked up in, and the target id names the state at that position.
   */
  lemma ConvergenceInRange(net: MachineNet, states: seq<PilotState>, k: nat)
    requires StatesOk(net, states) && TransOk(net, states, k) && NotReentrant(net)
    ensures forall c :: c in ConvergenceUpTo(states[k], |states[k].transitions|) ==>
              && c.state1Id == k && c.candidate11Idx < |states[k].candidates| && c.candidate12Idx < |states[k].candidates|
              && 0 <= c.state2Id < |states| && states[c.state2Id].id == c.state2Id
              && c.candidate2Idx < |states[c.state2Id].candidates|
  {
    var s := states[k];
    forall c | c in ConvergenceUpTo(s, |s.transitions|)
      ensures && c.state1Id == k && c.candidate11Idx < |s.candidates| && c.candidate12Idx < |s.candidates|
              && 0 <= c.state2Id < |states| && c.candidate2Idx < |states[c.state2Id].candidates|
    {
      ConvergenceMembers(s, |s.transitions|, c);
      var a: nat, p: nat, q: nat :| a < |s.transitions| && ConvergesAt(s, a, p, q, c);
      ConvergenceFromOk(net, states, s.candidates, s.transitions[a], p, q);
    }
  }

  /** The map positions of a right transition name sources in range and, without re-entry, targets in range. */
  lemma ConvergenceFromOk(net: MachineNet, states: seq<PilotState>, cs: seq<Candidate>, t: PilotTransition, p: nat, q: nat)
    requires WellFormed(net) && AllValid(net, cs) && TransitionOk(net, states, cs, t) && NotReentrant(net)
    requires p < |t.candidateMap| && q < |t.candidateMap|
    ensures t.candidateMap[p].0 < |cs| && t.candidateMap[q].0 < |cs|
    ensures 0 <= t.destId < |states| && t.candidateMap[p].1 < |states[t.destId].candidates|
  {
    assert t.candidateMap[p] in t.candidateMap && t.candidateMap[q] in t.candidateMap;
  }

  // ---------------------------------------------------------------------------
  // print_conflicts

  /** The number of conflicts of the three kinds in one state. */
  function StateConflicts(s: PilotState): nat
  {
    |ShiftReduceConflicts(s)| + |ReduceReduceUpTo(s, |s.candidates|)| + |ConvergenceUpTo(s, |s.transitions|)|
  }

  /** The number of conflicts over the first `n` states. */
  function TotalConflicts(states: seq<PilotState>, n: nat): nat
    requires n <= |states|
  {
    if n == 0 then 0 else TotalConflicts(states, n - 1) + StateConflicts(states[n - 1])
  }

  /** State `s` reports no conflict of any kind. */
  predicate ConflictFree(s: PilotState)
  {
    && ShiftReduceConflicts(s) == []
    && ReduceReduceUpTo(s, |s.candidates|) == []
    && ConvergenceUpTo(s, |s.transitions|) == []
  }

  /** The total is zero exactly when every state reports no conflict of any kind. */
  lemma {:induction false} TotalZeroIff(states: seq<PilotState>, n: nat)
    requires n <= |states|
    ensures TotalConflicts(states, n) == 0 <==> forall k :: 0 <= k < n ==> ConflictFree(states[k])
  {
    TotalZeroCounts(states, n);
    forall k | 0 <= k < n ensures StateConflicts(states[k]) == 0 <==> ConflictFree(states[k]) {
      StateZeroIff(states[k]);
    }
  }

  lemma {:induction false} TotalZeroCounts(states: seq<PilotState>, n: nat)
    requires n <= |states|
    ensures TotalConflicts(states, n) == 0 <==> forall k :: 0 <= k < n ==> StateConflicts(states[k]) == 0
  {
    if n > 0 {
      TotalZeroCounts(states, n - 1);
    }
  }

  lemma StateZeroIff(s: PilotState)
    ensures StateConflicts(s) == 0 <==> ConflictFree(s)
  {
  }

  /**
   * The counting of `print_conflicts`: one per reported conflict over all states;
   * "no conflicts" is reported exactly when no state reports any.
   */
  method CountConflicts(states: seq<PilotState>) returns (count: nat, noConflicts: bool)
    ensures count == TotalConflicts(states, |states|)
    ensures noConflicts <==> forall k :: 0 <= k < |states| ==> ConflictFree(states[k])
  {
    count := 0;
    for k := 0 to |states|
      invariant count == TotalConflicts(states, k)
    {
      var state := states[k];
      var sr := ShiftReduceConflicts(state);
      ghost var start := count;
      for i := 0 to |sr|
        invariant count == start + i
      {
        count := count + 1;
      }
      var rr := ReduceReduceConflicts(state);
      for i := 0 to |rr|
        invariant count == start + |sr| + i
      {
        count := count + 1;
      }
      var cc := ConvergenceConflicts(state);
      for i := 0 to |cc|
        invariant count == start + |sr| + |rr| + i
      {
        count := count + 1;
      }
    }
    noConflicts := count == 0;
    TotalZeroIff(states, |states|);
  }
}
