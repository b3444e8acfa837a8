/**
 * The finite-state machines every part of the toolkit works on: a machine is a name
 * and a list of states; a state has an integer id, its outgoing transitions and its
 * initial/final flags; a transition carries a character and the id of its
 * destination state in the same machine.
 */
module Fsm {
  import opened Wrappers

  datatype Transition = Transition(character: char, dest: int)

  datatype State = State(id: int, transitions: seq<Transition>, isInitial: bool, isFinal: bool)

  datatype Machine = Machine(name: char, states: seq<State>)

  const Uppercase: string := "ABCDEFGHIJKLMNOPQRSTUVWXYZ"

  /** An uppercase label calls the machine of that name (`is_ascii_uppercase`). */
  predicate IsNonterminal(t: Transition)
  {
    'A' <= t.character <= 'Z'
  }

  /** The label `_` marks a spontaneous (epsilon) transition. */
  predicate IsEpsilon(t: Transition)
  {
    t.character == '_'
  }

  /** The ASCII range test agrees with the list of the 26 uppercase letters. */
  lemma NonterminalIffUppercaseLetter(t: Transition)
    ensures IsNonterminal(t) <==> t.character in Uppercase
  {
    if IsNonterminal(t) {
      var k := t.character as int - 'A' as int;
      assert 0 <= k < 26;
      assert Uppercase[k] == t.character;
    }
  }

  predicate HasStateIn(states: seq<State>, id: int)
  {
    exists k :: 0 <= k < |states| && states[k].id == id
  }

  predicate HasState(m: Machine, id: int)
  {
    HasStateIn(m.states, id)
  }

  /** Position of the first state with the given id. */
  function FirstIndex(states: seq<State>, id: int): (k: nat)
    requires HasStateIn(states, id)
    ensures k < |states| && states[k].id == id
    ensures forall j :: 0 <= j < k ==> states[j].id != id
  {
    if states[0].id == id then 0
    else
      assert HasStateIn(states[1..], id) by {
        var k :| 0 <= k < |states| && states[k].id == id;
        assert states[1..][k - 1].id == id;
      }
      1 + FirstIndex(states[1..], id)
  }

  /**
   * The linear search of `Machine::lookup_state`: the first state in list order whose
   * id matches. A missing state is a panic in the toolkit, hence the precondition.
   */
  function LookupState(m: Machine, id: int): (s: State)
    requires HasState(m, id)
    ensures s.id == id
    ensures exists k :: (0 <= k < |m.states| && m.states[k] == s
                         && forall j :: 0 <= j < k ==> m.states[j].id != id)
  {
    m.states[FirstIndex(m.states, id)]
  }

  /** The non-panicking lookup: None exactly when no state has the id. */
  function TryLookupState(m: Machine, id: int): (r: Option<State>)
    ensures r.None? <==> !HasState(m, id)
    ensures r.Some? ==> r.value.id == id && r.value in m.states
  {
    if HasState(m, id) then Some(LookupState(m, id)) else None
  }

  /** The first transition of `ts` labelled `c`, if any. */
  function FindTransition(ts: seq<Transition>, c: char): (r: Option<Transition>)
    ensures r.None? <==> forall k :: 0 <= k < |ts| ==> ts[k].character != c
    ensures r.Some? ==> exists k :: (0 <= k < |ts| && ts[k] == r.value && r.value.character == c
                                     && forall j :: 0 <= j < k ==> ts[j].character != c)
  {
    if |ts| == 0 then None
    else if ts[0].character == c then Some(ts[0])
    else
      var r := FindTransition(ts[1..], c);
      if r.Some? then
        var k :| (0 <= k < |ts| - 1 && ts[1..][k] == r.value && r.value.character == c
                  && forall j :: 0 <= j < k ==> ts[1..][j].character != c);
        assert ts[k + 1] == r.value;
        assert forall j :: 0 <= j < k + 1 ==> ts[j].character != c by {
          forall j | 0 <= j < k + 1 ensures ts[j].character != c {
            if j > 0 { assert ts[j] == ts[1..][j - 1]; }
          }
        }
        r
      else
        assert forall k :: 1 <= k < |ts| ==> ts[k] == ts[1..][k - 1];
        r
  }
}
