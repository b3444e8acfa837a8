/**
 * Removal of spontaneous (`_`) transitions from a finite-state machine, in place:
 * the epsilon closure makes the epsilon relation transitive; backward propagation
 * copies the labelled transitions reached through an epsilon move back to its source
 * and marks new final states; forward propagation copies labelled transitions
 * forward along epsilon moves and marks new initial states; finally every epsilon
 * transition is dropped. No step adds or removes a state.
 */
module EpsilonElim {
  import opened Util
  import opened Fsm

  /** A transition to add: source id, label, destination id. */
  type Edge = (int, char, int)

  /** The state `lookup_state` and `lookup_state_mut` find: the first with that id. */
  function LookupIn(states: seq<State>, id: int): State
    requires HasStateIn(states, id)
  {
    states[FirstIndex(states, id)]
  }

  /** Every transition leads to a state of the machine. */
  predicate ClosedStates(states: seq<State>)
  {
    forall k, t :: 0 <= k < |states| && t in states[k].transitions ==> HasStateIn(states, t.dest)
  }

  /** The state found for `id` has the transition `c` to `d`. */
  predicate HasEdge(states: seq<State>, id: int, c: char, d: int)
  {
    HasStateIn(states, id) && Transition(c, d) in LookupIn(states, id).transitions
  }

  /** No state precedes position k with the same id. */
  predicate IsFirst(states: seq<State>, k: int)
    requires 0 <= k < |states|
  {
    forall j :: 0 <= j < k ==> states[j].id != states[k].id
  }

  predicate SameIds(s0: seq<State>, s1: seq<State>)
  {
    |s1| == |s0| && forall k :: 0 <= k < |s0| ==> s1[k].id == s0[k].id
  }

  predicate SameFlags(s0: seq<State>, s1: seq<State>)
    requires |s1| == |s0|
  {
    forall k :: 0 <= k < |s0| ==> s1[k].isInitial == s0[k].isInitial && s1[k].isFinal == s0[k].isFinal
  }

  predicate SameTransitions(s0: seq<State>, s1: seq<State>)
    requires |s1| == |s0|
  {
    forall k :: 0 <= k < |s0| ==> s1[k].transitions == s0[k].transitions
  }

  /** The states are the same ones, with transitions only appended. */
  predicate Grows(s0: seq<State>, s1: seq<State>)
  {
    SameIds(s0, s1) && forall k :: 0 <= k < |s0| ==> s0[k].transitions <= s1[k].transitions
  }

  /** With the same ids the lookup finds the same position. */
  lemma FirstIndexSameIds(s0: seq<State>, s1: seq<State>, id: int)
    requires SameIds(s0, s1) && HasStateIn(s0, id)
    ensures HasStateIn(s1, id) && FirstIndex(s1, id) == FirstIndex(s0, id)
  {
    var k0 := FirstIndex(s0, id);
    assert s1[k0].id == id;
  }

  /** Growing keeps every edge and the closedness of the machine. */
  lemma HasEdgeGrows(s0: seq<State>, s1: seq<State>, id: int, c: char, d: int)
    requires Grows(s0, s1) && HasEdge(s0, id, c, d)
    ensures HasEdge(s1, id, c, d)
  {
    FirstIndexSameIds(s0, s1, id);
    var k := FirstIndex(s0, id);
    assert Transition(c, d) in s0[k].transitions;
  }

  lemma GrowsTransitive(s0: seq<State>, s1: seq<State>, s2: seq<State>)
    requires Grows(s0, s1) && Grows(s1, s2)
    ensures Grows(s0, s2)
  {
    forall k | 0 <= k < |s0| ensures s0[k].transitions <= s2[k].transitions {
      assert s0[k].transitions <= s1[k].transitions <= s2[k].transitions;
    }
  }

  // ---------------------------------------------------------------------------
  // Adding one transition

  /**
   * `add_transition` / `add_epsilon_transition` on state values: the transition is
   * appended to the state found for the source id unless that state has it already.
   */
  function AddEdge(states: seq<State>, e: Edge): (r: seq<State>)
    requires HasStateIn(states, e.0)
    ensures Grows(states, r) && SameFlags(states, r)
    ensures HasEdge(r, e.0, e.1, e.2)
    ensures var k := FirstIndex(states, e.0);
            && (forall j :: 0 <= j < |states| && j != k ==> r[j] == states[j])
            && r[k].transitions == (if Transition(e.1, e.2) in states[k].transitions then states[k].transitions
                                    else states[k].transitions + [Transition(e.1, e.2)])
  {
    var k := FirstIndex(states, e.0);
    var t := Transition(e.1, e.2);
    var r := if t in states[k].transitions then states
             else states[k := states[k].(transitions := states[k].transitions + [t])];
    FirstIndexSameIds(states, r, e.0);
    r
  }

  /** Appending a transition the state lacks keeps its transitions duplicate-free. */
  lemma AddEdgeNoDup(states: seq<State>, e: Edge)
    requires HasStateIn(states, e.0)
    requires forall k :: 0 <= k < |states| ==> NoDup(states[k].transitions)
    ensures var r := AddEdge(states, e); forall k :: 0 <= k < |r| ==> NoDup(r[k].transitions)
  {
    var k := FirstIndex(states, e.0);
    if Transition(e.1, e.2) !in states[k].transitions {
      NoDupAppend(states[k].transitions, Transition(e.1, e.2));
    }
  }

  /** The edges added in list order (`for ... in to_add`). */
  function ApplyEdges(states: seq<State>, es: seq<Edge>): (r: seq<State>)
    requires forall j :: 0 <= j < |es| ==> HasStateIn(states, es[j].0)
    ensures Grows(states, r) && SameFlags(states, r)
    ensures forall e :: e in es ==> HasEdge(r, e.0, e.1, e.2)
    ensures forall k, a :: 0 <= k < |r| && |states[k].transitions| <= a < |r[k].transitions|
                           ==> (states[k].id, r[k].transitions[a].character, r[k].transitions[a].dest) in es
  {
    if es == [] then states
    else
      var init := es[..|es| - 1];
      var mid := ApplyEdges(states, init);
      var e := es[|es| - 1];
      FirstIndexSameIds(states, mid, e.0);
      assert es == init + [e];
      ApplyEdgesStep(states, init, mid, e);
      AddEdge(mid, e)
  }

  /** One more edge keeps the three promises of `ApplyEdges`. */
  lemma ApplyEdgesStep(states: seq<State>, init: seq<Edge>, mid: seq<State>, e: Edge)
    requires Grows(states, mid) && SameFlags(states, mid) && HasStateIn(mid, e.0)
    requires forall e' :: e' in init ==> HasEdge(mid, e'.0, e'.1, e'.2)
    requires forall k, a :: 0 <= k < |mid| && |states[k].transitions| <= a < |mid[k].transitions|
                            ==> (states[k].id, mid[k].transitions[a].character, mid[k].transitions[a].dest) in init
    ensures var r := AddEdge(mid, e);
            && Grows(states, r) && SameFlags(states, r)
            && (forall e' :: e' in init + [e] ==> HasEdge(r, e'.0, e'.1, e'.2))
            && (forall k, a :: 0 <= k < |r| && |states[k].transitions| <= a < |r[k].transitions|
                               ==> (states[k].id, r[k].transitions[a].character, r[k].transitions[a].dest) in init + [e])
  {
    var es := init + [e];
    var r := AddEdge(mid, e);
    GrowsTransitive(states, mid, r);
    forall e' | e' in es ensures HasEdge(r, e'.0, e'.1, e'.2) {
      if e' in init { HasEdgeGrows(mid, r, e'.0, e'.1, e'.2); }
    }
    forall k, a | 0 <= k < |r| && |states[k].transitions| <= a < |r[k].transitions|
      ensures (states[k].id, r[k].transitions[a].character, r[k].transitions[a].dest) in es
    {
      if a < |mid[k].transitions| {
        assert r[k].transitions[a] == mid[k].transitions[a];
        assert (states[k].id, r[k].transitions[a].character, r[k].transitions[a].dest) in init;
      } else {
        assert k == FirstIndex(mid, e.0);
        assert r[k].transitions[a] == Transition(e.1, e.2);
      }
    }
  }

  /** Applying edges never creates a duplicate transition. */
  lemma {:induction false} ApplyEdgesNoDup(states: seq<State>, es: seq<Edge>)
    requires forall j :: 0 <= j < |es| ==> HasStateIn(states, es[j].0)
    requires forall k :: 0 <= k < |states| ==> NoDup(states[k].transitions)
    ensures forall k :: 0 <= k < |ApplyEdges(states, es)| ==> NoDup(ApplyEdges(states, es)[k].transitions)
  {
    if es != [] {
      var init := es[..|es| - 1];
      ApplyEdgesNoDup(states, init);
      var mid := ApplyEdges(states, init);
      assert forall k :: 0 <= k < |mid| ==> NoDup(mid[k].transitions);
      FirstIndexSameIds(states, mid, es[|es| - 1].0);
      AddEdgeNoDup(mid, es[|es| - 1]);
    }
  }

  // ---------------------------------------------------------------------------
  // Two-step paths: s -t-> d -nt-> e

  /** The label the new transition carries: the one of the two steps that is not `_`. */
  function Label(t: Transition, nt: Transition): char
  {
    if IsEpsilon(t) then nt.character else t.character
  }

  /**
   * The state a transition of state i at position a leads to. In a closed machine
   * it exists; otherwise `lookup_state` would panic, and the stand-in state with no
   * transitions is never used.
   */
  function Hop(states: seq<State>, i: int, a: int): State
    requires 0 <= i < |states| && 0 <= a < |states[i].transitions|
  {
    FindState(states, states[i].transitions[a].dest)
  }

  /** The linear search for the first state with an id, with a stand-in when there is none. */
  function FindState(states: seq<State>, id: int): (s: State)
    ensures s.id == id
    ensures HasStateIn(states, id) ==> s in states
    ensures !HasStateIn(states, id) ==> s == State(id, [], false, false)
  {
    if states == [] then State(id, [], false, false)
    else if states[0].id == id then states[0]
    else FindState(states[1..], id)
  }

  /** Where a state with the id exists, the search finds the one `LookupIn` names. */
  lemma {:induction false} FindStateIsLookup(states: seq<State>, id: int)
    requires HasStateIn(states, id)
    ensures FindState(states, id) == LookupIn(states, id)
  {
    if states[0].id != id {
      var k :| 0 <= k < |states| && states[k].id == id;
      assert states[1..][k - 1].id == id;
      FindStateIsLookup(states[1..], id);
      assert FirstIndex(states, id) == 1 + FirstIndex(states[1..], id);
    }
  }

  /** States with the same ids and flags lead the search to states with the same flags. */
  lemma {:induction false} FindStateSameFlags(s0: seq<State>, s1: seq<State>, id: int)
    requires SameIds(s0, s1) && SameFlags(s0, s1)
    ensures FindState(s0, id).isFinal == FindState(s1, id).isFinal
    ensures FindState(s0, id).isInitial == FindState(s1, id).isInitial
  {
    if s0 != [] && s0[0].id != id {
      FindStateSameFlags(s0[1..], s1[1..], id);
    }
  }

  lemma HopIsLookup(states: seq<State>, i: int, a: int)
    requires 0 <= i < |states| && 0 <= a < |states[i].transitions|
    requires HasStateIn(states, states[i].transitions[a].dest)
    ensures Hop(states, i, a) == LookupIn(states, states[i].transitions[a].dest)
  {
    FindStateIsLookup(states, states[i].transitions[a].dest);
  }

  /** A path whose first step is `_` iff `fe` and whose second is `_` iff `se`. */
  predicate IsPath(states: seq<State>, fe: bool, se: bool, i: int, a: int, b: int)
  {
    && 0 <= i < |states| && 0 <= a < |states[i].transitions|
    && IsEpsilon(states[i].transitions[a]) == fe
    && 0 <= b < |Hop(states, i, a).transitions|
    && IsEpsilon(Hop(states, i, a).transitions[b]) == se
  }

  /** The transition a path asks for: from s, the path's label, to e. */
  function PathEdge(states: seq<State>, i: int, a: int, b: int): Edge
    requires 0 <= i < |states| && 0 <= a < |states[i].transitions|
    requires 0 <= b < |Hop(states, i, a).transitions|
  {
    var nt := Hop(states, i, a).transitions[b];
    (states[i].id, Label(states[i].transitions[a], nt), nt.dest)
  }

  /** The innermost loop: the second steps of one first step, among the first n. */
  function Hops(sid: int, t: Transition, nts: seq<Transition>, se: bool, n: nat): seq<Edge>
    requires n <= |nts|
  {
    if n == 0 then []
    else Hops(sid, t, nts, se, n - 1)
         + (if IsEpsilon(nts[n - 1]) == se then [(sid, Label(t, nts[n - 1]), nts[n - 1].dest)] else [])
  }

  /** The paths whose first step is transition a of state i. */
  function Step(states: seq<State>, i: nat, fe: bool, se: bool, a: nat): seq<Edge>
    requires i < |states| && a < |states[i].transitions|
  {
    var t := states[i].transitions[a];
    if IsEpsilon(t) == fe then Hops(states[i].id, t, Hop(states, i, a).transitions, se, |Hop(states, i, a).transitions|)
    else []
  }

  /** The middle loop: the paths through the first n transitions of state i. */
  function PathsOf(states: seq<State>, i: nat, fe: bool, se: bool, n: nat): seq<Edge>
    requires i < |states| && n <= |states[i].transitions|
  {
    if n == 0 then [] else PathsOf(states, i, fe, se, n - 1) + Step(states, i, fe, se, n - 1)
  }

  /** The outer loop: the paths from the first n states. */
  function AllPaths(states: seq<State>, fe: bool, se: bool, n: nat): seq<Edge>
    requires n <= |states|
  {
    if n == 0 then []
    else AllPaths(states, fe, se, n - 1) + PathsOf(states, n - 1, fe, se, |states[n - 1].transitions|)
  }

  lemma {:induction false} HopsMembers(sid: int, t: Transition, nts: seq<Transition>, se: bool, n: nat, p: Edge)
    requires n <= |nts|
    ensures p in Hops(sid, t, nts, se, n) <==>
            exists b :: 0 <= b < n && IsEpsilon(nts[b]) == se && p == (sid, Label(t, nts[b]), nts[b].dest)
  {
    if n > 0 { HopsMembers(sid, t, nts, se, n - 1, p); }
  }

  lemma {:induction false} PathsOfMembers(states: seq<State>, i: nat, fe: bool, se: bool, n: nat, p: Edge)
    requires i < |states| && n <= |states[i].transitions|
    ensures p in PathsOf(states, i, fe, se, n) <==>
            exists a, b :: 0 <= a < n && IsPath(states, fe, se, i, a, b) && p == PathEdge(states, i, a, b)
  {
    if p in PathsOf(states, i, fe, se, n) {
      var a, b := PathsOfSound(states, i, fe, se, n, p);
      assert 0 <= a < n && IsPath(states, fe, se, i, a, b) && p == PathEdge(states, i, a, b);
    }
    if exists a, b :: 0 <= a < n && IsPath(states, fe, se, i, a, b) && p == PathEdge(states, i, a, b) {
      var a, b :| 0 <= a < n && IsPath(states, fe, se, i, a, b) && p == PathEdge(states, i, a, b);
      PathsOfComplete(states, i, fe, se, n, a, b);
    }
  }

  /** The path a member of `PathsOf` comes from. */
  lemma PathsOfSound(states: seq<State>, i: nat, fe: bool, se: bool, n: nat, p: Edge)
    returns (a: nat, b: nat)
    requires i < |states| && n <= |states[i].transitions|
    requires p in PathsOf(states, i, fe, se, n)
    ensures a < n && IsPath(states, fe, se, i, a, b) && p == PathEdge(states, i, a, b)
  {
    a := PathsOfSource(states, i, fe, se, n, p);
    b := LastHopsSound(states, i, fe, se, a, p);
  }

  /** The first step a member of `PathsOf` was collected at. */
  lemma {:induction false} PathsOfSource(states: seq<State>, i: nat, fe: bool, se: bool, n: nat, p: Edge)
    returns (a: nat)
    requires i < |states| && n <= |states[i].transitions|
    requires p in PathsOf(states, i, fe, se, n)
    ensures a < n && p in Step(states, i, fe, se, a)
  {
    if p in PathsOf(states, i, fe, se, n - 1) {
      a := PathsOfSource(states, i, fe, se, n - 1, p);
    } else {
      a := n - 1;
    }
  }

  /** The second step of a path through transition a of state i that `Step` lists. */
  lemma LastHopsSound(states: seq<State>, i: nat, fe: bool, se: bool, a: nat, p: Edge) returns (b: nat)
    requires i < |states| && a < |states[i].transitions|
    requires p in Step(states, i, fe, se, a)
    ensures IsPath(states, fe, se, i, a, b) && p == PathEdge(states, i, a, b)
  {
    var nts := Hop(states, i, a).transitions;
    b := HopsSound(states[i].id, states[i].transitions[a], nts, se, |nts|, p);
  }

  /** The second step `Hops` took a member from. */
  lemma {:induction false} HopsSound(sid: int, t: Transition, nts: seq<Transition>, se: bool, n: nat, p: Edge)
    returns (b: nat)
    requires n <= |nts| && p in Hops(sid, t, nts, se, n)
    ensures b < n && IsEpsilon(nts[b]) == se && p == (sid, Label(t, nts[b]), nts[b].dest)
  {
    if p in Hops(sid, t, nts, se, n - 1) {
      b := HopsSound(sid, t, nts, se, n - 1, p);
    } else {
      b := n - 1;
    }
  }

  lemma PathsOfComplete(states: seq<State>, i: nat, fe: bool, se: bool, n: nat, a: nat, b: nat)
    requires i < |states| && n <= |states[i].transitions|
    requires a < n && IsPath(states, fe, se, i, a, b)
    ensures PathEdge(states, i, a, b) in PathsOf(states, i, fe, se, n)
  {
    LastHopsMembers(states, i, fe, se, a, PathEdge(states, i, a, b));
    PathsOfContains(states, i, fe, se, n, a, PathEdge(states, i, a, b));
  }

  /** What `Step` collects at first step a ends up in `PathsOf`. */
  lemma {:induction false} PathsOfContains(states: seq<State>, i: nat, fe: bool, se: bool, n: nat, a: nat, p: Edge)
    requires i < |states| && a < n <= |states[i].transitions| && p in Step(states, i, fe, se, a)
    ensures p in PathsOf(states, i, fe, se, n)
  {
    if a < n - 1 {
      PathsOfContains(states, i, fe, se, n - 1, a, p);
    }
  }

  /** The paths through transition a of state i. */
  lemma LastHopsMembers(states: seq<State>, i: nat, fe: bool, se: bool, a: nat, p: Edge)
    requires i < |states| && a < |states[i].transitions|
    ensures p in Step(states, i, fe, se, a) <==> exists b :: IsPath(states, fe, se, i, a, b) && p == PathEdge(states, i, a, b)
  {
    var t := states[i].transitions[a];
    var nts := Hop(states, i, a).transitions;
    HopsMembers(states[i].id, t, nts, se, |nts|, p);
    if p in Step(states, i, fe, se, a) {
      var b :| 0 <= b < |nts| && IsEpsilon(nts[b]) == se && p == (states[i].id, Label(t, nts[b]), nts[b].dest);
      assert IsPath(states, fe, se, i, a, b) && p == PathEdge(states, i, a, b);
    }
    if exists b :: IsPath(states, fe, se, i, a, b) && p == PathEdge(states, i, a, b) {
      var b :| IsPath(states, fe, se, i, a, b) && p == PathEdge(states, i, a, b);
      assert IsEpsilon(nts[b]) == se && p == (states[i].id, Label(t, nts[b]), nts[b].dest);
    }
  }

  lemma {:induction false} AllPathsMembers(states: seq<State>, fe: bool, se: bool, n: nat, p: Edge)
    requires n <= |states|
    ensures p in AllPaths(states, fe, se, n) <==>
            exists i, a, b :: 0 <= i < n && IsPath(states, fe, se, i, a, b) && p == PathEdge(states, i, a, b)
  {
    if p in AllPaths(states, fe, se, n) {
      var i, a, b := AllPathsSound(states, fe, se, n, p);
      assert 0 <= i < n && IsPath(states, fe, se, i, a, b) && p == PathEdge(states, i, a, b);
    }
    if exists i, a, b :: 0 <= i < n && IsPath(states, fe, se, i, a, b) && p == PathEdge(states, i, a, b) {
      var i, a, b :| 0 <= i < n && IsPath(states, fe, se, i, a, b) && p == PathEdge(states, i, a, b);
      AllPathsComplete(states, fe, se, n, i, a, b);
    }
  }

  /** The path a member of `AllPaths` comes from. */
  lemma AllPathsSound(states: seq<State>, fe: bool, se: bool, n: nat, p: Edge)
    returns (i: nat, a: nat, b: nat)
    requires n <= |states| && p in AllPaths(states, fe, se, n)
    ensures i < n && IsPath(states, fe, se, i, a, b) && p == PathEdge(states, i, a, b)
  {
    i := AllPathsSource(states, fe, se, n, p);
    a, b := PathsOfSound(states, i, fe, se, |states[i].transitions|, p);
  }

  /** The state a member of `AllPaths` was collected at. */
  lemma {:induction false} AllPathsSource(states: seq<State>, fe: bool, se: bool, n: nat, p: Edge) returns (i: nat)
    requires n <= |states| && p in AllPaths(states, fe, se, n)
    ensures i < n && p in PathsOf(states, i, fe, se, |states[i].transitions|)
  {
    if p in AllPaths(states, fe, se, n - 1) {
      i := AllPathsSource(states, fe, se, n - 1, p);
    } else {
      i := n - 1;
    }
  }

  lemma AllPathsComplete(states: seq<State>, fe: bool, se: bool, n: nat, i: nat, a: nat, b: nat)
    requires n <= |states| && i < n && IsPath(states, fe, se, i, a, b)
    ensures PathEdge(states, i, a, b) in AllPaths(states, fe, se, n)
  {
    PathsOfComplete(states, i, fe, se, |states[i].transitions|, a, b);
    AllPathsContains(states, fe, se, n, i, PathEdge(states, i, a, b));
  }

  /** What `PathsOf` collects at state i ends up in `AllPaths`. */
  lemma {:induction false} AllPathsContains(states: seq<State>, fe: bool, se: bool, n: nat, i: nat, p: Edge)
    requires n <= |states| && i < n && p in PathsOf(states, i, fe, se, |states[i].transitions|)
    ensures p in AllPaths(states, fe, se, n)
  {
    if i < n - 1 {
      AllPathsContains(states, fe, se, n - 1, i, p);
    }
  }

  // ---------------------------------------------------------------------------
  // The epsilon relation, for the termination of the closure

  function Ids(states: seq<State>): set<int>
  {
    set k | 0 <= k < |states| :: states[k].id
  }

  /** The destinations of epsilon transitions. */
  function EpsDests(states: seq<State>): set<int>
  {
    set k, t | 0 <= k < |states| && t in states[k].transitions && IsEpsilon(t) :: t.dest
  }

  /** Every (source id, epsilon destination) pair an epsilon move could join. */
  ghost function EpsUniverse(ids: set<int>, dests: set<int>): set<(int, int)>
  {
    set i, d | i in ids && d in dests :: (i, d)
  }

  /** The epsilon moves present, as (source id, destination id). */
  ghost function EpsPairs(states: seq<State>): set<(int, int)>
  {
    set i, d | i in Ids(states) && d in EpsDests(states) && HasEdge(states, i, '_', d) :: (i, d)
  }

  /** The paths the closure walks ask for epsilon moves from a state to an epsilon destination. */
  lemma ClosurePathsSound(states: seq<State>, p: Edge)
    requires ClosedStates(states) && p in AllPaths(states, true, true, |states|)
    ensures p.1 == '_' && p.0 in Ids(states) && HasStateIn(states, p.0) && p.2 in EpsDests(states)
  {
    AllPathsMembers(states, true, true, |states|, p);
    var i, a, b :| 0 <= i < |states| && IsPath(states, true, true, i, a, b) && p == PathEdge(states, i, a, b);
    var k := FirstIndex(states, states[i].transitions[a].dest);
    HopIsLookup(states, i, a);
    assert states[k].transitions[b] in states[k].transitions;
  }

  /** Adding an epsilon move to an epsilon destination keeps ids and destinations and grows the pairs. */
  lemma AddEpsilonStep(states: seq<State>, src: int, dest: int)
    requires HasStateIn(states, src) && src in Ids(states) && dest in EpsDests(states)
    ensures var r := AddEdge(states, (src, '_', dest));
            && Ids(r) == Ids(states) && EpsDests(r) == EpsDests(states)
            && EpsPairs(states) <= EpsPairs(r)
            && (r != states ==> (src, dest) in EpsPairs(r) - EpsPairs(states))
  {
    var r := AddEdge(states, (src, '_', dest));
    var k := FirstIndex(states, src);
    assert Ids(r) == Ids(states) by {
      forall x ensures x in Ids(r) <==> x in Ids(states) {
        if x in Ids(r) { var j :| 0 <= j < |r| && r[j].id == x; assert states[j].id == x; }
        if x in Ids(states) { var j :| 0 <= j < |states| && states[j].id == x; assert r[j].id == x; }
      }
    }
    assert EpsDests(r) == EpsDests(states) by {
      forall x | x in EpsDests(r) ensures x in EpsDests(states) {
        var j, t :| 0 <= j < |r| && t in r[j].transitions && IsEpsilon(t) && t.dest == x;
        if t !in states[j].transitions { assert x == dest; }
      }
      forall x | x in EpsDests(states) ensures x in EpsDests(r) {
        var j, t :| 0 <= j < |states| && t in states[j].transitions && IsEpsilon(t) && t.dest == x;
        assert t in r[j].transitions;
      }
    }
    forall q | q in EpsPairs(states) ensures q in EpsPairs(r) {
      HasEdgeGrows(states, r, q.0, '_', q.1);
    }
  }

  /** Growing the pairs inside a fixed universe is bounded. */
  lemma EpsPairsBound(states: seq<State>)
    ensures |EpsPairs(states)| <= |EpsUniverse(Ids(states), EpsDests(states))|
  {
    SubsetCard(EpsPairs(states), EpsUniverse(Ids(states), EpsDests(states)));
  }

  lemma GrownSetCard<T>(a: set<T>, b: set<T>, x: T)
    requires a <= b && x in b && x !in a
    ensures |a| < |b|
  {
    SubsetCard(a, b - {x});
  }

  /** Every path of two epsilon moves is short-cut by one epsilon move. */
  ghost predicate EpsTransitive(states: seq<State>)
    requires ClosedStates(states)
  {
    forall i, a, b :: IsPath(states, true, true, i, a, b) ==>
      HasEdge(states, states[i].id, '_', Hop(states, i, a).transitions[b].dest)
  }

  /** Edges appended to the states of `s0` are epsilon moves to epsilon destinations of `s0`. */
  ghost predicate AppendedEpsilon(s0: seq<State>, s1: seq<State>)
    requires SameIds(s0, s1)
  {
    forall k, a :: 0 <= k < |s0| && |s0[k].transitions| <= a < |s1[k].transitions|
                   ==> IsEpsilon(s1[k].transitions[a]) && s1[k].transitions[a].dest in EpsDests(s0)
  }

  /** What the closure keeps from pass to pass. */
  ghost predicate ClosureInv(s0: seq<State>, s: seq<State>)
  {
    && Grows(s0, s) && SameFlags(s0, s) && AppendedEpsilon(s0, s)
    && ClosedStates(s) && Ids(s) == Ids(s0) && EpsDests(s) == EpsDests(s0)
  }

  /** A pass that added nothing leaves a transitive epsilon relation. */
  lemma QuietPassTransitive(states: seq<State>)
    requires ClosedStates(states)
    requires forall p :: p in AllPaths(states, true, true, |states|) ==> HasEdge(states, p.0, p.1, p.2)
    ensures EpsTransitive(states)
  {
    forall i, a, b | IsPath(states, true, true, i, a, b)
      ensures HasEdge(states, states[i].id, '_', Hop(states, i, a).transitions[b].dest)
    {
      var p := PathEdge(states, i, a, b);
      AllPathsMembers(states, true, true, |states|, p);
    }
  }

  /** One applied closure edge keeps the closure invariant. */
  lemma ClosureStep(s0: seq<State>, pass: seq<State>, s: seq<State>, e: Edge)
    requires ClosureInv(s0, pass) && ClosureInv(s0, s) && Grows(pass, s)
    requires e.1 == '_' && e.0 in Ids(s) && HasStateIn(s, e.0) && e.2 in EpsDests(s)
    ensures var r := AddEdge(s, e); ClosureInv(s0, r) && Grows(pass, r)
  {
    var r := AddEdge(s, e);
    AddEpsilonStep(s, e.0, e.2);
    GrowsTransitive(s0, s, r);
    GrowsTransitive(pass, s, r);
    ClosureStepClosed(s0, s, e);
    forall k, a | 0 <= k < |s0| && |s0[k].transitions| <= a < |r[k].transitions|
      ensures IsEpsilon(r[k].transitions[a]) && r[k].transitions[a].dest in EpsDests(s0)
    {
      if a < |s[k].transitions| { assert r[k].transitions[a] == s[k].transitions[a]; }
    }
  }

  /** An epsilon move to an epsilon destination keeps the machine closed. */
  lemma ClosureStepClosed(s0: seq<State>, s: seq<State>, e: Edge)
    requires ClosedStates(s) && Grows(s0, s) && HasStateIn(s, e.0) && e.2 in EpsDests(s0)
    ensures ClosedStates(AddEdge(s, e))
  {
    var r := AddEdge(s, e);
    assert HasStateIn(s, e.2) by {
      var j, u :| 0 <= j < |s0| && u in s0[j].transitions && IsEpsilon(u) && u.dest == e.2;
      assert u in s[j].transitions;
    }
    forall k, t | 0 <= k < |r| && t in r[k].transitions ensures HasStateIn(r, t.dest) {
      if t in s[k].transitions {
        assert HasStateIn(s, t.dest);
      }
      FirstIndexSameIds(s, r, t.dest);
    }
  }

  // ---------------------------------------------------------------------------
  // New final and initial states

  /** Some state with this id has an epsilon move to a final state. */
  ghost predicate EpsToFinal(states: seq<State>, id: int)
  {
    exists i, a :: (0 <= i < |states| && 0 <= a < |states[i].transitions| && states[i].id == id
                    && IsEpsilon(states[i].transitions[a]) && Hop(states, i, a).isFinal)
  }

  /** Some initial state has an epsilon move to this id. */
  ghost predicate EpsFromInitial(states: seq<State>, id: int)
  {
    exists i, a :: (0 <= i < |states| && 0 <= a < |states[i].transitions| && states[i].isInitial
                    && IsEpsilon(states[i].transitions[a]) && states[i].transitions[a].dest == id)
  }

  /** The inner loop of `mark_new_final` over the first n transitions of state i. */
  function FinalSourcesOf(states: seq<State>, i: nat, n: nat): (r: seq<int>)
    requires i < |states| && n <= |states[i].transitions|
    ensures forall j :: 0 <= j < |r| ==> r[j] == states[i].id
  {
    if n == 0 then []
    else FinalSourcesOf(states, i, n - 1)
         + (if IsEpsilon(states[i].transitions[n - 1]) && Hop(states, i, n - 1).isFinal then [states[i].id] else [])
  }

  function FinalSources(states: seq<State>, n: nat): (r: seq<int>)
    requires n <= |states|
    ensures forall j :: 0 <= j < |r| ==> HasStateIn(states, r[j])
  {
    if n == 0 then [] else FinalSources(states, n - 1) + FinalSourcesOf(states, n - 1, |states[n - 1].transitions|)
  }

  lemma {:induction false} FinalSourcesMembers(states: seq<State>, n: nat, id: int)
    requires n <= |states|
    ensures id in FinalSources(states, n) <==>
            exists i, a :: (0 <= i < n && 0 <= a < |states[i].transitions| && states[i].id == id
                            && IsEpsilon(states[i].transitions[a]) && Hop(states, i, a).isFinal)
  {
    if n > 0 {
      FinalSourcesMembers(states, n - 1, id);
      FinalSourcesOfMembers(states, n - 1, |states[n - 1].transitions|, id);
    }
  }

  lemma {:induction false} FinalSourcesOfMembers(states: seq<State>, i: nat, n: nat, id: int)
    requires i < |states| && n <= |states[i].transitions|
    ensures id in FinalSourcesOf(states, i, n) <==>
            exists a :: (0 <= a < n && states[i].id == id
                         && IsEpsilon(states[i].transitions[a]) && Hop(states, i, a).isFinal)
  {
    if n > 0 { FinalSourcesOfMembers(states, i, n - 1, id); }
  }

  /** The inner loop of `mark_new_initial` over the first n transitions of state i. */
  function InitialTargetsOf(states: seq<State>, i: nat, n: nat): (r: seq<int>)
    requires i < |states| && n <= |states[i].transitions|
    ensures ClosedStates(states) ==> forall x :: x in r ==> HasStateIn(states, x)
  {
    if n == 0 then []
    else
      assert states[i].transitions[n - 1] in states[i].transitions;
      InitialTargetsOf(states, i, n - 1)
         + (if states[i].isInitial && IsEpsilon(states[i].transitions[n - 1])
            then [states[i].transitions[n - 1].dest] else [])
  }

  function InitialTargets(states: seq<State>, n: nat): (r: seq<int>)
    requires n <= |states|
    ensures ClosedStates(states) ==> forall j :: 0 <= j < |r| ==> HasStateIn(states, r[j])
  {
    if n == 0 then [] else InitialTargets(states, n - 1) + InitialTargetsOf(states, n - 1, |states[n - 1].transitions|)
  }

  lemma {:induction false} InitialTargetsMembers(states: seq<State>, n: nat, id: int)
    requires n <= |states|
    ensures id in InitialTargets(states, n) <==>
            exists i, a :: (0 <= i < n && 0 <= a < |states[i].transitions| && states[i].isInitial
                            && IsEpsilon(states[i].transitions[a]) && states[i].transitions[a].dest == id)
  {
    if n > 0 {
      InitialTargetsMembers(states, n - 1, id);
      InitialTargetsOfMembers(states, n - 1, |states[n - 1].transitions|, id);
    }
  }

  lemma {:induction false} InitialTargetsOfMembers(states: seq<State>, i: nat, n: nat, id: int)
    requires i < |states| && n <= |states[i].transitions|
    ensures id in InitialTargetsOf(states, i, n) <==>
            exists a :: (0 <= a < n && states[i].isInitial
                         && IsEpsilon(states[i].transitions[a]) && states[i].transitions[a].dest == id)
  {
    if n > 0 { InitialTargetsOfMembers(states, i, n - 1, id); }
  }

  /** The final flag, or the initial flag. */
  function Flag(s: State, final: bool): bool
  {
    if final then s.isFinal else s.isInitial
  }

  lemma IsFirstSameIds(s0: seq<State>, s1: seq<State>)
    requires SameIds(s0, s1)
    ensures forall k :: 0 <= k < |s0| ==> IsFirst(s1, k) == IsFirst(s0, k)
  {
  }

  /** `lookup_state_mut(id).is_final = true` (or `is_initial`): only the first state with the id gets the flag. */
  function SetFlag(states: seq<State>, id: int, final: bool): (r: seq<State>)
    requires HasStateIn(states, id)
    ensures SameIds(states, r) && SameTransitions(states, r)
    ensures forall k :: 0 <= k < |r| ==>
              Flag(r[k], !final) == Flag(states[k], !final)
              && (Flag(r[k], final) <==> Flag(states[k], final) || (IsFirst(states, k) && states[k].id == id))
  {
    var q := FirstIndex(states, id);
    assert forall k :: 0 <= k < |states| ==> (IsFirst(states, k) && states[k].id == id <==> k == q);
    states[q := if final then states[q].(isFinal := true) else states[q].(isInitial := true)]
  }

  /** The marking loop: each listed id in order. */
  function SetFlags(states: seq<State>, ids: seq<int>, final: bool): (r: seq<State>)
    requires forall j :: 0 <= j < |ids| ==> HasStateIn(states, ids[j])
    ensures SameIds(states, r) && SameTransitions(states, r)
    ensures forall k :: 0 <= k < |r| ==>
              Flag(r[k], !final) == Flag(states[k], !final)
              && (Flag(r[k], final) <==> Flag(states[k], final) || (IsFirst(states, k) && states[k].id in ids))
  {
    if ids == [] then states
    else
      var init := ids[..|ids| - 1];
      var mid := SetFlags(states, init, final);
      var id := ids[|ids| - 1];
      FirstIndexSameIds(states, mid, id);
      IsFirstSameIds(states, mid);
      assert forall k :: 0 <= k < |states| ==> (states[k].id in ids <==> states[k].id in init || states[k].id == id);
      SetFlag(mid, id, final)
  }

  // ---------------------------------------------------------------------------
  // Dropping epsilon transitions

  /** The transitions that are not `_`, in their order. */
  function NonEpsilon(ts: seq<Transition>): seq<Transition>
  {
    if ts == [] then []
    else (if IsEpsilon(ts[0]) then [] else [ts[0]]) + NonEpsilon(ts[1..])
  }

  /** Exactly the transitions that are not `_` remain. */
  lemma {:induction false} NonEpsilonMembers(ts: seq<Transition>)
    ensures forall t :: t in NonEpsilon(ts) <==> t in ts && !IsEpsilon(t)
  {
    if ts != [] {
      NonEpsilonMembers(ts[1..]);
      assert ts == [ts[0]] + ts[1..];
    }
  }

  /** The filter keeps order: it distributes over concatenation, and keeps a list without `_` as is. */
  lemma {:induction false} NonEpsilonAppend(a: seq<Transition>, b: seq<Transition>)
    ensures NonEpsilon(a + b) == NonEpsilon(a) + NonEpsilon(b)
  {
    if a == [] {
      assert a + b == b;
    } else {
      NonEpsilonAppend(a[1..], b);
      var h := if IsEpsilon(a[0]) then [] else [a[0]];
      assert (a + b)[0] == a[0] && (a + b)[1..] == a[1..] + b;
      calc {
        NonEpsilon(a + b);
        h + NonEpsilon(a[1..] + b);
        h + (NonEpsilon(a[1..]) + NonEpsilon(b));
        (h + NonEpsilon(a[1..])) + NonEpsilon(b);
        NonEpsilon(a) + NonEpsilon(b);
      }
    }
  }

  lemma {:induction false} NonEpsilonIdentity(ts: seq<Transition>)
    requires forall t :: t in ts ==> !IsEpsilon(t)
    ensures NonEpsilon(ts) == ts
  {
    if ts != [] {
      assert ts[0] in ts;
      NonEpsilonIdentity(ts[1..]);
    }
  }

  // ---------------------------------------------------------------------------
  // The machine, mutated in place

  /** One step of a closure pass: the collected edge is an epsilon move the invariant allows. */
  lemma ClosurePassStep(s0: seq<State>, pass: seq<State>, s: seq<State>, e: Edge)
    requires ClosureInv(s0, pass) && ClosureInv(s0, s) && Grows(pass, s)
    requires e in AllPaths(pass, true, true, |pass|)
    ensures HasStateIn(s, e.0) && e == (e.0, '_', e.2)
    ensures var r := AddEdge(s, (e.0, '_', e.2));
            && ClosureInv(s0, r) && Grows(pass, r) && EpsPairs(s) <= EpsPairs(r)
            && (Transition('_', e.2) in LookupIn(s, e.0).transitions ==> r == s)
            && (Transition('_', e.2) !in LookupIn(s, e.0).transitions ==>
                  (e.0, e.2) in EpsPairs(r) && (e.0, e.2) !in EpsPairs(s))
  {
    ClosurePathsSound(pass, e);
    FirstIndexSameIds(pass, s, e.0);
    ClosureStep(s0, pass, s, e);
    AddEpsilonStep(s, e.0, e.2);
    var r := AddEdge(s, e);
    var k := FirstIndex(s, e.0);
    if Transition('_', e.2) !in LookupIn(s, e.0).transitions {
      assert |r[k].transitions| != |s[k].transitions|;
    }
  }

  /** The invariant of a closure pass after its first j collected edges. */
  ghost predicate PassInv(s0: seq<State>, pass: seq<State>, s: seq<State>, toAdd: seq<Edge>,
                          j: int, changed: bool, newPair: (int, int))
  {
    && ClosureInv(s0, pass) && toAdd == AllPaths(pass, true, true, |pass|) && 0 <= j <= |toAdd|
    && ClosureInv(s0, s) && Grows(pass, s)
    && (!changed ==> s == pass)
    && EpsPairs(pass) <= EpsPairs(s)
    && (changed ==> newPair in EpsPairs(s) && newPair !in EpsPairs(pass))
    && forall q :: 0 <= q < j ==> HasEdge(s, toAdd[q].0, toAdd[q].1, toAdd[q].2)
  }

  lemma PassStep(s0: seq<State>, pass: seq<State>, s: seq<State>, toAdd: seq<Edge>,
                 j: int, changed: bool, newPair: (int, int))
    requires PassInv(s0, pass, s, toAdd, j, changed, newPair) && j < |toAdd|
    ensures HasStateIn(s, toAdd[j].0)
    ensures var e := toAdd[j];
            var added := Transition('_', e.2) !in LookupIn(s, e.0).transitions;
            PassInv(s0, pass, AddEdge(s, (e.0, '_', e.2)), toAdd, j + 1, changed || added,
                    if added && !changed then (e.0, e.2) else newPair)
  {
    var e := toAdd[j];
    assert e in AllPaths(pass, true, true, |pass|);
    ClosurePassStep(s0, pass, s, e);
    var r := AddEdge(s, (e.0, '_', e.2));
    forall q | 0 <= q < j + 1 ensures HasEdge(r, toAdd[q].0, toAdd[q].1, toAdd[q].2) {
      if q < j { HasEdgeGrows(s, r, toAdd[q].0, toAdd[q].1, toAdd[q].2); }
    }
  }

  lemma PassEnd(s0: seq<State>, pass: seq<State>, s: seq<State>, toAdd: seq<Edge>, newPair: (int, int))
    requires PassInv(s0, pass, s, toAdd, |toAdd|, false, newPair)
    ensures EpsTransitive(s)
  {
    forall p | p in AllPaths(s, true, true, |s|) ensures HasEdge(s, p.0, p.1, p.2) {
      var q :| 0 <= q < |toAdd| && toAdd[q] == p;
    }
    QuietPassTransitive(s);
  }

  /** After a propagation pass every path of the shape is short-cut in `s1`. */
  ghost predicate PathsShortcut(s0: seq<State>, fe: bool, se: bool, s1: seq<State>)
    requires ClosedStates(s0)
  {
    forall i, a, b :: IsPath(s0, fe, se, i, a, b) ==>
      var e := PathEdge(s0, i, a, b); HasEdge(s1, e.0, e.1, e.2)
  }

  /** Exactly the states with an epsilon move to a final state became final (first state of each id). */
  ghost predicate FinalMarked(s0: seq<State>, s1: seq<State>)
    requires ClosedStates(s0)
  {
    |s1| == |s0| &&
    forall k :: 0 <= k < |s0| ==>
      s1[k].isInitial == s0[k].isInitial
      && (s1[k].isFinal <==> s0[k].isFinal || (IsFirst(s0, k) && EpsToFinal(s0, s0[k].id)))
  }

  /** Exactly the epsilon successors of initial states became initial (first state of each id). */
  ghost predicate InitialMarked(s0: seq<State>, s1: seq<State>)
  {
    |s1| == |s0| &&
    forall k :: 0 <= k < |s0| ==>
      s1[k].isFinal == s0[k].isFinal
      && (s1[k].isInitial <==> s0[k].isInitial || (IsFirst(s0, k) && EpsFromInitial(s0, s0[k].id)))
  }

  /** The innermost loop of the path collection. */
  method CollectHops(sid: int, t: Transition, nts: seq<Transition>, se: bool) returns (r: seq<Edge>)
    ensures r == Hops(sid, t, nts, se, |nts|)
  {
    r := [];
    for b := 0 to |nts|
      invariant r == Hops(sid, t, nts, se, b)
    {
      var nt := nts[b];
      if IsEpsilon(nt) == se {
        r := r + [(sid, Label(t, nt), nt.dest)];
      }
    }
  }

  // ---------------------------------------------------------------------------
  // The machine, mutated in place

  class EpsilonMachine {
    var name: char
    var states: seq<State>

    constructor(m: Machine)
      ensures name == m.name && states == m.states
    {
      name := m.name;
      states := m.states;
    }

    /** `add_epsilon_transition`: true iff the source lacked an epsilon move to `destId`, which it then gains. */
    method AddEpsilonTransition(srcId: int, destId: int) returns (added: bool)
      requires HasStateIn(states, srcId)
      modifies this
      ensures added <==> Transition('_', destId) !in LookupIn(old(states), srcId).transitions
      ensures states == AddEdge(old(states), (srcId, '_', destId)) && name == old(name)
    {
      var k := FirstIndex(states, srcId);
      var src := states[k];
      if Transition('_', destId) in src.transitions {
        added := false;
      } else {
        states := states[k := src.(transitions := src.transitions + [Transition('_', destId)])];
        added := true;
      }
    }

    /** `add_transition`: appends `c` to `destId` unless the source already has it. */
    method AddTransition(srcId: int, c: char, destId: int)
      requires HasStateIn(states, srcId)
      modifies this
      ensures states == AddEdge(old(states), (srcId, c, destId)) && name == old(name)
    {
      var k := FirstIndex(states, srcId);
      var src := states[k];
      if Transition(c, destId) !in src.transitions {
        states := states[k := src.(transitions := src.transitions + [Transition(c, destId)])];
      }
    }

    /** The `to_add` loops of the closure and propagation passes: every path of the given shape, in order. */
    method CollectPaths(fe: bool, se: bool) returns (toAdd: seq<Edge>)
      ensures toAdd == AllPaths(states, fe, se, |states|)
    {
      toAdd := [];
      for i := 0 to |states|
        invariant toAdd == AllPaths(states, fe, se, i)
      {
        var paths := CollectPathsOf(i, fe, se);
        toAdd := toAdd + paths;
      }
    }

    /** The loops over the transitions of state i and of the states they reach. */
    method CollectPathsOf(i: nat, fe: bool, se: bool) returns (toAdd: seq<Edge>)
      requires i < |states|
      ensures toAdd == PathsOf(states, i, fe, se, |states[i].transitions|)
    {
      toAdd := [];
      var s := states[i];
      for a := 0 to |s.transitions|
        invariant toAdd == PathsOf(states, i, fe, se, a)
      {
        var t := s.transitions[a];
        if IsEpsilon(t) == fe {
          var destS := Hop(states, i, a);
          var hops := CollectHops(s.id, t, destS.transitions, se);
          toAdd := toAdd + hops;
        }
      }
    }

    /** Adds the collected transitions in order. */
    method AddAll(toAdd: seq<Edge>)
      requires forall j :: 0 <= j < |toAdd| ==> HasStateIn(states, toAdd[j].0)
      modifies this
      ensures states == ApplyEdges(old(states), toAdd) && name == old(name)
    {
      for j := 0 to |toAdd|
        invariant states == ApplyEdges(old(states), toAdd[..j]) && name == old(name)
      {
        assert toAdd[..j + 1][..j] == toAdd[..j];
        var s0 := ApplyEdges(old(states), toAdd[..j]);
        FirstIndexSameIds(old(states), s0, toAdd[j].0);
        AddTransition(toAdd[j].0, toAdd[j].1, toAdd[j].2);
      }
      assert toAdd[..|toAdd|] == toAdd;
    }

    /**
     * One pass of the `epsilon_trans_closure` loop: the epsilon moves short-cutting
     * two epsilon moves are added; `changed` says whether any was new, and
     * `newPair` names one that was.
     */
    method ClosurePass(ghost s0: seq<State>) returns (changed: bool, ghost newPair: (int, int))
      requires ClosureInv(s0, states)
      modifies this
      ensures ClosureInv(s0, states) && Grows(old(states), states) && name == old(name)
      ensures !changed ==> states == old(states) && EpsTransitive(states)
      ensures EpsPairs(old(states)) <= EpsPairs(states)
      ensures changed ==> newPair in EpsPairs(states) && newPair !in EpsPairs(old(states))
    {
      var toAdd := CollectPaths(true, true);
      ghost var pass := states;
      changed, newPair := false, (0, 0);
      for j := 0 to |toAdd|
        invariant PassInv(s0, pass, states, toAdd, j, changed, newPair) && name == old(name)
      {
        var e := toAdd[j];
        PassStep(s0, pass, states, toAdd, j, changed, newPair);
        var added := AddEpsilonTransition(e.0, e.2);
        if added && !changed { newPair := (e.0, e.2); }
        changed := changed || added;
      }
      if !changed {
        PassEnd(s0, pass, states, toAdd, newPair);
      }
    }

    /**
     * `epsilon_trans_closure`: passes until one adds nothing. Only epsilon moves to
     * existing epsilon destinations are added, and on exit the epsilon relation is
     * transitive.
     */
    method EpsilonTransClosure()
      requires ClosedStates(states)
      modifies this
      ensures ClosureInv(old(states), states) && EpsTransitive(states) && name == old(name)
    {
      ghost var s0 := states;
      ghost var bound := |EpsUniverse(Ids(s0), EpsDests(s0))|;
      EpsPairsBound(states);
      while true
        invariant ClosureInv(s0, states) && name == old(name)
        invariant |EpsPairs(states)| <= bound
        decreases bound - |EpsPairs(states)|
      {
        ghost var before := states;
        var changed, newPair := ClosurePass(s0);
        if !changed {
          break;
        }
        GrownSetCard(EpsPairs(before), EpsPairs(states), newPair);
        EpsPairsBound(states);
      }
    }

    /** The collecting loops of `mark_new_final`. */
    method CollectFinalSources() returns (toAdd: seq<int>)
      ensures toAdd == FinalSources(states, |states|)
    {
      toAdd := [];
      for i := 0 to |states|
        invariant toAdd == FinalSources(states, i)
      {
        var s := states[i];
        for a := 0 to |s.transitions|
          invariant toAdd == FinalSources(states, i) + FinalSourcesOf(states, i, a)
        {
          var t := s.transitions[a];
          if IsEpsilon(t) && Hop(states, i, a).isFinal {
            toAdd := toAdd + [s.id];
          }
        }
      }
    }

    /** The collecting loops of `mark_new_initial`. */
    method CollectInitialTargets() returns (toAdd: seq<int>)
      ensures toAdd == InitialTargets(states, |states|)
    {
      toAdd := [];
      for i := 0 to |states|
        invariant toAdd == InitialTargets(states, i)
      {
        var s := states[i];
        if s.isInitial {
          for a := 0 to |s.transitions|
            invariant toAdd == InitialTargets(states, i) + InitialTargetsOf(states, i, a)
          {
            var t := s.transitions[a];
            if IsEpsilon(t) {
              toAdd := toAdd + [t.dest];
            }
          }
        } else {
          NotInitialNoTargets(states, i, |s.transitions|);
        }
      }
    }

    /** The marking loops: each listed id's state gets the flag. */
    method SetFlagsAll(ids: seq<int>, final: bool)
      requires forall j :: 0 <= j < |ids| ==> HasStateIn(states, ids[j])
      modifies this
      ensures states == SetFlags(old(states), ids, final) && name == old(name)
    {
      for j := 0 to |ids|
        invariant states == SetFlags(old(states), ids[..j], final) && name == old(name)
      {
        assert ids[..j + 1][..j] == ids[..j];
        FirstIndexSameIds(old(states), states, ids[j]);
        var k := FirstIndex(states, ids[j]);
        IsFirstSameIds(old(states), states);
        states := states[k := if final then states[k].(isFinal := true) else states[k].(isInitial := true)];
      }
      assert ids[..|ids|] == ids;
    }

    /** `mark_new_final`: states with an epsilon move to a state final before the pass become final. */
    method MarkNewFinal()
      requires ClosedStates(states)
      modifies this
      ensures states == SetFlags(old(states), FinalSources(old(states), |old(states)|), true) && name == old(name)
    {
      var toAdd := CollectFinalSources();
      SetFlagsAll(toAdd, true);
    }

    /** `mark_new_initial`: the epsilon successors of initial states become initial. */
    method MarkNewInitial()
      requires ClosedStates(states)
      modifies this
      ensures states == SetFlags(old(states), InitialTargets(old(states), |old(states)|), false) && name == old(name)
    {
      var toAdd := CollectInitialTargets();
      SetFlagsAll(toAdd, false);
    }

    /**
     * `backward_propagation`: for every path s -_-> d -c-> e (c not `_`) the
     * transition s -c-> e is added; then `mark_new_final` runs.
     */
    method BackwardPropagation()
      requires ClosedStates(states)
      modifies this
      ensures Grows(old(states), states) && name == old(name)
      ensures PathsShortcut(old(states), true, false, states)
      ensures FinalMarked(old(states), states)
      ensures var mid := WithShortcuts(old(states), true, false);
              states == SetFlags(mid, FinalSources(mid, |mid|), true)
    {
      ghost var s0 := states;
      var toAdd := CollectPaths(true, false);
      PathSourcesExist(s0, true, false, toAdd);
      AddAll(toAdd);
      ghost var mid := states;
      PropagationClosed(s0, true, false, mid);
      MarkNewFinal();
      PropagationDone(s0, true, false, mid, states);
      MarkFinalAfterBackward(s0, mid, states);
    }

    /**
     * `forward_propagation`: for every path s -c-> d -_-> e (c not `_`) the
     * transition s -c-> e is added; then `mark_new_initial` runs.
     */
    method ForwardPropagation()
      requires ClosedStates(states)
      modifies this
      ensures Grows(old(states), states) && name == old(name)
      ensures PathsShortcut(old(states), false, true, states)
      ensures InitialMarked(old(states), states)
      ensures var mid := WithShortcuts(old(states), false, true);
              states == SetFlags(mid, InitialTargets(mid, |mid|), false)
    {
      ghost var s0 := states;
      var toAdd := CollectPaths(false, true);
      PathSourcesExist(s0, false, true, toAdd);
      AddAll(toAdd);
      ghost var mid := states;
      PropagationClosed(s0, false, true, mid);
      MarkNewInitial();
      PropagationDone(s0, false, true, mid, states);
      MarkInitialAfterForward(s0, mid, states);
    }

    /** `remove_epsilon_trans`: every state keeps exactly its transitions that are not `_`, in order. */
    method RemoveEpsilonTrans()
      modifies this
      ensures |states| == |old(states)| && name == old(name)
      ensures forall k :: 0 <= k < |states| ==>
                states[k] == old(states)[k].(transitions := NonEpsilon(old(states)[k].transitions))
    {
      for k := 0 to |states|
        invariant |states| == |old(states)| && name == old(name)
        invariant forall j :: 0 <= j < k ==> states[j] == old(states)[j].(transitions := NonEpsilon(old(states)[j].transitions))
        invariant forall j :: k <= j < |states| ==> states[j] == old(states)[j]
      {
        var s := states[k];
        states := states[k := s.(transitions := NonEpsilon(s.transitions))];
      }
    }
  }

  // Lemmas the propagation passes rest on

  lemma NotInitialNoTargets(states: seq<State>, i: nat, n: nat)
    requires i < |states| && n <= |states[i].transitions| && !states[i].isInitial
    ensures InitialTargetsOf(states, i, n) == []
  {
    if n > 0 { NotInitialNoTargets(states, i, n - 1); }
  }

  /** Every collected path starts at a state of the machine. */
  /** The states after every collected shortcut has been added. */
  function WithShortcuts(states: seq<State>, fe: bool, se: bool): (r: seq<State>)
    requires ClosedStates(states)
    ensures |r| == |states| && Grows(states, r)
    ensures fe != se ==> ClosedStates(r)
  {
    PathSourcesExist(states, fe, se, AllPaths(states, fe, se, |states|));
    var r := ApplyEdges(states, AllPaths(states, fe, se, |states|));
    if fe != se then PropagationClosed(states, fe, se, r); r else r
  }

  lemma PathSourcesExist(states: seq<State>, fe: bool, se: bool, toAdd: seq<Edge>)
    requires ClosedStates(states) && toAdd == AllPaths(states, fe, se, |states|)
    ensures forall j :: 0 <= j < |toAdd| ==> HasStateIn(states, toAdd[j].0)
  {
    forall j | 0 <= j < |toAdd| ensures HasStateIn(states, toAdd[j].0) {
      AllPathsMembers(states, fe, se, |states|, toAdd[j]);
    }
  }

  /** After adding the collected edges and marking flags, every path of the shape is short-cut. */
  lemma PropagationDone(s0: seq<State>, fe: bool, se: bool, mid: seq<State>, s2: seq<State>)
    requires ClosedStates(s0)
    requires forall j :: 0 <= j < |AllPaths(s0, fe, se, |s0|)| ==> HasStateIn(s0, AllPaths(s0, fe, se, |s0|)[j].0)
    requires mid == ApplyEdges(s0, AllPaths(s0, fe, se, |s0|))
    requires SameIds(mid, s2) && SameTransitions(mid, s2)
    ensures Grows(s0, s2) && PathsShortcut(s0, fe, se, s2)
  {
    var es := AllPaths(s0, fe, se, |s0|);
    assert Grows(mid, s2);
    GrowsTransitive(s0, mid, s2);
    forall i, a, b | IsPath(s0, fe, se, i, a, b)
      ensures var e := PathEdge(s0, i, a, b); HasEdge(s2, e.0, e.1, e.2)
    {
      var e := PathEdge(s0, i, a, b);
      AllPathsMembers(s0, fe, se, |s0|, e);
      HasEdgeGrows(mid, s2, e.0, e.1, e.2);
    }
  }

  /**
   * The propagation passes add edges whose label is not `_` (one of the two steps
   * is labelled) and whose destination is a state; so the machine stays closed and
   * its epsilon moves are unchanged.
   */
  lemma PropagationClosed(s0: seq<State>, fe: bool, se: bool, s1: seq<State>)
    requires ClosedStates(s0) && fe != se
    requires forall j :: 0 <= j < |AllPaths(s0, fe, se, |s0|)| ==> HasStateIn(s0, AllPaths(s0, fe, se, |s0|)[j].0)
    requires s1 == ApplyEdges(s0, AllPaths(s0, fe, se, |s0|))
    ensures ClosedStates(s1)
    ensures forall k, a :: 0 <= k < |s1| && |s0[k].transitions| <= a < |s1[k].transitions|
                           ==> !IsEpsilon(s1[k].transitions[a])
  {
    var es := AllPaths(s0, fe, se, |s0|);
    forall k, a | 0 <= k < |s1| && |s0[k].transitions| <= a < |s1[k].transitions|
      ensures !IsEpsilon(s1[k].transitions[a]) && HasStateIn(s0, s1[k].transitions[a].dest)
    {
      var p := (s0[k].id, s1[k].transitions[a].character, s1[k].transitions[a].dest);
      AllPathsMembers(s0, fe, se, |s0|, p);
      var i, a', b :| 0 <= i < |s0| && IsPath(s0, fe, se, i, a', b) && p == PathEdge(s0, i, a', b);
      var q := FirstIndex(s0, s0[i].transitions[a'].dest);
      HopIsLookup(s0, i, a');
      assert s0[q].transitions[b] in s0[q].transitions;
    }
    forall k, t | 0 <= k < |s1| && t in s1[k].transitions ensures HasStateIn(s1, t.dest) {
      var a :| 0 <= a < |s1[k].transitions| && s1[k].transitions[a] == t;
      if a < |s0[k].transitions| {
        assert s0[k].transitions[a] == t;
        assert t in s0[k].transitions;
      }
      FirstIndexSameIds(s0, s1, t.dest);
    }
  }

  /** Appending labelled transitions leaves the epsilon moves, flags and targets of the lookup as they were. */
  lemma MarkFinalAfterBackward(s0: seq<State>, mid: seq<State>, s2: seq<State>)
    requires ClosedStates(s0) && ClosedStates(mid) && Grows(s0, mid) && SameFlags(s0, mid)
    requires forall k, a :: 0 <= k < |mid| && |s0[k].transitions| <= a < |mid[k].transitions|
                            ==> !IsEpsilon(mid[k].transitions[a])
    requires s2 == SetFlags(mid, FinalSources(mid, |mid|), true)
    ensures FinalMarked(s0, s2)
  {
    forall id ensures id in FinalSources(mid, |mid|) <==> EpsToFinal(s0, id) {
      FinalSourcesMembers(mid, |mid|, id);
      if EpsToFinal(s0, id) {
        var i, a :| (0 <= i < |s0| && 0 <= a < |s0[i].transitions| && s0[i].id == id
                     && IsEpsilon(s0[i].transitions[a]) && Hop(s0, i, a).isFinal);
        assert mid[i].transitions[a] == s0[i].transitions[a];
        FindStateSameFlags(s0, mid, s0[i].transitions[a].dest);
      }
      if id in FinalSources(mid, |mid|) {
        var i, a :| (0 <= i < |mid| && 0 <= a < |mid[i].transitions| && mid[i].id == id
                     && IsEpsilon(mid[i].transitions[a]) && Hop(mid, i, a).isFinal);
        assert a < |s0[i].transitions|;
        assert mid[i].transitions[a] == s0[i].transitions[a];
        FindStateSameFlags(s0, mid, s0[i].transitions[a].dest);
      }
    }
    forall k | 0 <= k < |s2| ensures IsFirst(mid, k) == IsFirst(s0, k) {
    }
  }

  lemma MarkInitialAfterForward(s0: seq<State>, mid: seq<State>, s2: seq<State>)
    requires ClosedStates(s0) && ClosedStates(mid) && Grows(s0, mid) && SameFlags(s0, mid)
    requires forall k, a :: 0 <= k < |mid| && |s0[k].transitions| <= a < |mid[k].transitions|
                            ==> !IsEpsilon(mid[k].transitions[a])
    requires s2 == SetFlags(mid, InitialTargets(mid, |mid|), false)
    ensures InitialMarked(s0, s2)
  {
    forall id ensures id in InitialTargets(mid, |mid|) <==> EpsFromInitial(s0, id) {
      InitialTargetsMembers(mid, |mid|, id);
      if EpsFromInitial(s0, id) {
        var i, a :| (0 <= i < |s0| && 0 <= a < |s0[i].transitions| && s0[i].isInitial
                     && IsEpsilon(s0[i].transitions[a]) && s0[i].transitions[a].dest == id);
        assert mid[i].transitions[a] == s0[i].transitions[a];
      }
      if id in InitialTargets(mid, |mid|) {
        var i, a :| (0 <= i < |mid| && 0 <= a < |mid[i].transitions| && mid[i].isInitial
                     && IsEpsilon(mid[i].transitions[a]) && mid[i].transitions[a].dest == id);
        assert a < |s0[i].transitions|;
        assert mid[i].transitions[a] == s0[i].transitions[a];
      }
    }
    forall k | 0 <= k < |s2| ensures IsFirst(mid, k) == IsFirst(s0, k) {
    }
  }
}
