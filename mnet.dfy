/**
 * A machine net: the grammar the pilot is built from. Each machine is named by an
 * uppercase letter and an uppercase transition label calls the machine of that name.
 * Besides the lookups by name and id, the net computes follower sets: the terminals
 * that can come next after a machine state, given the terminals `next` that follow
 * the machine itself.
 */
module Mnet {
  import opened Wrappers
  import opened Util
  import opened Fsm

  datatype MachineNet = MachineNet(machines: seq<Machine>)

  predicate HasMachine(net: MachineNet, name: char)
  {
    exists k :: 0 <= k < |net.machines| && net.machines[k].name == name
  }

  /** Position of the first machine with the given name. */
  function FirstMachineIndex(ms: seq<Machine>, name: char): (k: nat)
    requires exists k :: 0 <= k < |ms| && ms[k].name == name
    ensures k < |ms| && ms[k].name == name
    ensures forall j :: 0 <= j < k ==> ms[j].name != name
  {
    if ms[0].name == name then 0
    else
      assert exists k :: 0 <= k < |ms| - 1 && ms[1..][k].name == name by {
        var k :| 0 <= k < |ms| && ms[k].name == name;
        assert ms[1..][k - 1].name == name;
      }
      1 + FirstMachineIndex(ms[1..], name)
  }

  /**
   * The machine a name refers to: the first one in list order with that name. A
   * missing machine is a panic in the toolkit, hence the precondition.
   */
  function LookupMachine(net: MachineNet, name: char): (m: Machine)
    requires HasMachine(net, name)
    ensures m.name == name && m in net.machines
    ensures exists k :: (0 <= k < |net.machines| && net.machines[k] == m
                         && forall j :: 0 <= j < k ==> net.machines[j].name != name)
  {
    net.machines[FirstMachineIndex(net.machines, name)]
  }

  /** The non-panicking lookup: None exactly when no machine has the name. */
  function TryLookupMachine(net: MachineNet, name: char): (r: Option<Machine>)
    ensures r.None? <==> !HasMachine(net, name)
    ensures r.Some? ==> r.value.name == name && r.value in net.machines
    ensures r.Some? ==> exists k :: (0 <= k < |net.machines| && net.machines[k] == r.value
                                     && forall j :: 0 <= j < k ==> net.machines[j].name != name)
  {
    if HasMachine(net, name) then Some(LookupMachine(net, name)) else None
  }

  /** State `id` exists in the machine that `name` refers to. */
  predicate HasNetState(net: MachineNet, name: char, id: int)
  {
    HasMachine(net, name) && HasState(LookupMachine(net, name), id)
  }

  /** The state `id` of the machine `name`; both must exist. */
  function NetLookupState(net: MachineNet, name: char, id: int): (s: State)
    requires HasNetState(net, name, id)
    ensures s.id == id && s in LookupMachine(net, name).states
  {
    LookupState(LookupMachine(net, name), id)
  }

  /** None when the machine is missing, otherwise the machine's own lookup. */
  function TryLookupNetState(net: MachineNet, name: char, id: int): (r: Option<State>)
    ensures r.None? <==> !HasNetState(net, name, id)
    ensures !HasMachine(net, name) ==> r.None?
    ensures HasMachine(net, name) ==> r == TryLookupState(LookupMachine(net, name), id)
  {
    match TryLookupMachine(net, name)
    case None => None
    case Some(m) => TryLookupState(m, id)
  }

  /** Every (machine name, state id) pair that occurs in the net. */
  function Pairs(net: MachineNet): set<(char, int)>
  {
    set m, s | m in net.machines && s in m.states :: (m.name, s.id)
  }

  /** Every transition of every state of every machine. */
  function AllTransitions(net: MachineNet): set<Transition>
  {
    set m, s, t | m in net.machines && s in m.states && t in s.transitions :: t
  }

  /** The terminal (non-uppercase) labels occurring anywhere in the net. */
  function TerminalLabels(net: MachineNet): set<char>
  {
    set t | t in AllTransitions(net) && !IsNonterminal(t) :: t.character
  }

  lemma NetStateFacts(net: MachineNet, name: char, id: int)
    requires HasNetState(net, name, id)
    ensures (name, id) in Pairs(net)
    ensures forall t :: t in NetLookupState(net, name, id).transitions ==> t in AllTransitions(net)
  {
    var m := LookupMachine(net, name);
    var s := NetLookupState(net, name, id);
    assert (m.name, s.id) in Pairs(net);
  }

  /**
   * Every transition leads to an existing state of its machine, and every uppercase
   * label names a machine that has a state 0; this is what the recursion of the
   * follower computation and the pilot construction look up.
   */
  ghost predicate WellFormed(net: MachineNet)
  {
    forall name, id {:trigger StateWellFormed(net, name, id)} | HasNetState(net, name, id) ::
      StateWellFormed(net, name, id)
  }

  predicate StateWellFormed(net: MachineNet, name: char, id: int)
    requires HasNetState(net, name, id)
  {
    forall t | t in NetLookupState(net, name, id).transitions :: TransitionWellFormed(net, name, t)
  }

  /** A transition of machine `name` that the follower search and the pilot can follow. */
  predicate TransitionWellFormed(net: MachineNet, name: char, t: Transition)
  {
    HasNetState(net, name, t.dest) && (IsNonterminal(t) ==> HasNetState(net, t.character, 0))
  }

  lemma RemainingShrinks(u: set<(char, int)>, a: set<(char, int)>, b: set<(char, int)>)
    requires a <= b
    ensures |u - b| <= |u - a|
  {
    SubsetCard(u - b, u - a);
  }

  lemma RemainingShrinksStrictly(u: set<(char, int)>, a: set<(char, int)>, p: (char, int))
    requires p in u && p !in a
    ensures |u - (a + {p})| < |u - a|
  {
    assert u - a == (u - (a + {p})) + {p};
  }

  /**
   * The follower computation as a function of the threaded `visited` set: the
   * terminals that may follow state `id` of machine `name`, paired with the visited
   * set on return. A pair already visited contributes nothing; otherwise the pair is
   * marked, a final state contributes `next`, and the transitions are folded by
   * FollowTransitions.
   */
  function FollowersFrom(net: MachineNet, name: char, id: int, visited: set<(char, int)>, next: set<char>)
    : (r: (set<char>, set<(char, int)>))
    requires WellFormed(net) && HasNetState(net, name, id)
    ensures visited <= r.1
    ensures (name, id) in r.1
    decreases |Pairs(net) - visited|, 0
  {
    if (name, id) in visited then ({}, visited)
    else
      var s := NetLookupState(net, name, id);
      NetStateFacts(net, name, id);
      assert StateWellFormed(net, name, id);
      RemainingShrinksStrictly(Pairs(net), visited, (name, id));
      FollowTransitions(net, name, s.transitions, visited + {(name, id)}, next,
                        if s.isFinal then next else {})
  }

  /** The loop over a state's transitions, `acc` being what it has collected so far. */
  function FollowTransitions(net: MachineNet, name: char, ts: seq<Transition>, visited: set<(char, int)>,
                             next: set<char>, acc: set<char>): (r: (set<char>, set<(char, int)>))
    requires WellFormed(net)
    requires forall t :: t in ts ==> TransitionWellFormed(net, name, t)
    ensures visited <= r.1
    decreases |Pairs(net) - visited|, 1, |ts|
  {
    if ts == [] then (acc, visited)
    else
      var t := ts[0];
      assert t in ts && TransitionWellFormed(net, name, t);
      assert forall u :: u in ts[1..] ==> u in ts;
      if !IsNonterminal(t) then
        FollowTransitions(net, name, ts[1..], visited, next, acc + {t.character})
      else
        var (nextNext, v1) := FollowersFrom(net, name, t.dest, visited, next);
        RemainingShrinks(Pairs(net), visited, v1);
        var (recFol, v2) := FollowersFrom(net, t.character, 0, v1, nextNext);
        RemainingShrinks(Pairs(net), visited, v2);
        FollowTransitions(net, name, ts[1..], v2, next, acc + recFol)
  }

  /**
   * What the follower search reports. An already visited pair contributes nothing; an
   * unvisited final state contributes all of `next`; the terminal labels leaving an
   * unvisited state are always reported; nothing outside `next` and the terminals of
   * the net is ever reported; and only pairs of the net are ever marked visited.
   */
  lemma {:induction false} FollowersFromBounds(net: MachineNet, name: char, id: int,
                                               visited: set<(char, int)>, next: set<char>)
    requires WellFormed(net) && HasNetState(net, name, id)
    ensures var r := FollowersFrom(net, name, id, visited, next);
            && r.1 <= visited + Pairs(net)
            && ((name, id) in visited ==> r.0 == {} && r.1 == visited)
            && ((name, id) !in visited && NetLookupState(net, name, id).isFinal ==> next <= r.0)
            && ((name, id) !in visited ==>
                  forall t :: t in NetLookupState(net, name, id).transitions && !IsNonterminal(t) ==> t.character in r.0)
            && r.0 <= next + TerminalLabels(net)
    decreases |Pairs(net) - visited|, 0
  {
    if (name, id) !in visited {
      var s := NetLookupState(net, name, id);
      NetStateFacts(net, name, id);
      assert StateWellFormed(net, name, id);
      RemainingShrinksStrictly(Pairs(net), visited, (name, id));
      FollowTransitionsBounds(net, name, s.transitions, visited + {(name, id)}, next,
                              if s.isFinal then next else {});
    }
  }

  lemma {:induction false} FollowTransitionsBounds(net: MachineNet, name: char, ts: seq<Transition>,
                                                   visited: set<(char, int)>, next: set<char>, acc: set<char>)
    requires WellFormed(net)
    requires forall t :: t in ts ==> t in AllTransitions(net) && TransitionWellFormed(net, name, t)
    ensures var r := FollowTransitions(net, name, ts, visited, next, acc);
            && r.1 <= visited + Pairs(net)
            && acc <= r.0
            && (forall t :: t in ts && !IsNonterminal(t) ==> t.character in r.0)
            && r.0 <= acc + next + TerminalLabels(net)
    decreases |Pairs(net) - visited|, 1, |ts|
  {
    if ts != [] {
      var t := ts[0];
      assert t in ts;
      assert forall u :: u in ts[1..] ==> u in ts;
      if !IsNonterminal(t) {
        FollowTransitionsBounds(net, name, ts[1..], visited, next, acc + {t.character});
      } else {
        var (nextNext, v1) := FollowersFrom(net, name, t.dest, visited, next);
        FollowersFromBounds(net, name, t.dest, visited, next);
        RemainingShrinks(Pairs(net), visited, v1);
        var (recFol, v2) := FollowersFrom(net, t.character, 0, v1, nextNext);
        FollowersFromBounds(net, t.character, 0, v1, nextNext);
        RemainingShrinks(Pairs(net), visited, v2);
        FollowTransitionsBounds(net, name, ts[1..], v2, next, acc + recFol);
      }
    }
  }

  /**
   * `followers_impl`: a depth-first search that threads `visited` through the
   * recursion and extends a local result, computing exactly FollowersFrom.
   */
  method FollowersImpl(net: MachineNet, name: char, id: int, visited: set<(char, int)>, next: set<char>)
    returns (res: set<char>, visitedOut: set<(char, int)>)
    requires WellFormed(net) && HasNetState(net, name, id)
    ensures (res, visitedOut) == FollowersFrom(net, name, id, visited, next)
    decreases |Pairs(net) - visited|
  {
    if (name, id) in visited {
      return {}, visited;
    }
    NetStateFacts(net, name, id);
    assert StateWellFormed(net, name, id);
    var state := NetLookupState(net, name, id);
    var ts := state.transitions;
    visitedOut := visited + {(name, id)};
    res := {};
    if state.isFinal {
      res := res + next;
    }
    assert res == if state.isFinal then next else {};
    var rest := ts;
    while rest != []
      invariant visited + {(name, id)} <= visitedOut
      invariant forall t :: t in rest ==> TransitionWellFormed(net, name, t)
      invariant FollowTransitions(net, name, rest, visitedOut, next, res)
                == FollowersFrom(net, name, id, visited, next)
      decreases |rest|
    {
      FollowTransitionsTail(net, name, rest);
      var t := rest[0];
      if !IsNonterminal(t) {
        FollowTerminalStep(net, name, rest, visitedOut, next, res);
        res := res + {t.character};
      } else {
        RemainingShrinksStrictly(Pairs(net), visited, (name, id));
        RemainingShrinks(Pairs(net), visited + {(name, id)}, visitedOut);
        var nextNext, v1 := FollowersImpl(net, name, t.dest, visitedOut, next);
        ghost var first := FollowersFrom(net, name, t.dest, visitedOut, next);
        RemainingShrinks(Pairs(net), visited + {(name, id)}, v1);
        var recFol, v2 := FollowersImpl(net, t.character, 0, v1, nextNext);
        ghost var second := FollowersFrom(net, t.character, 0, v1, nextNext);
        FollowNonterminalStep(net, name, rest, visitedOut, next, res, first, second);
        visitedOut := v2;
        res := res + recFol;
      }
      rest := rest[1..];
    }
  }

  /** The fold's precondition passes from a sequence of transitions to its tail. */
  lemma FollowTransitionsTail(net: MachineNet, name: char, ts: seq<Transition>)
    requires ts != []
    requires forall t :: t in ts ==> TransitionWellFormed(net, name, t)
    ensures forall t :: t in ts[1..] ==> TransitionWellFormed(net, name, t)
    ensures TransitionWellFormed(net, name, ts[0])
  {
    assert ts[0] in ts;
    assert forall u :: u in ts[1..] ==> u in ts;
  }

  /** One step of the fold over a terminal transition. */
  lemma FollowTerminalStep(net: MachineNet, name: char, ts: seq<Transition>, visited: set<(char, int)>,
                           next: set<char>, acc: set<char>)
    requires WellFormed(net) && ts != [] && !IsNonterminal(ts[0])
    requires forall t :: t in ts ==> TransitionWellFormed(net, name, t)
    ensures FollowTransitions(net, name, ts, visited, next, acc)
            == FollowTransitions(net, name, ts[1..], visited, next, acc + {ts[0].character})
  {
    FollowTransitionsTail(net, name, ts);
  }

  /** One step of the fold over a nonterminal transition, given the results of its two searches. */
  lemma FollowNonterminalStep(net: MachineNet, name: char, ts: seq<Transition>, visited: set<(char, int)>,
                              next: set<char>, acc: set<char>,
                              first: (set<char>, set<(char, int)>), second: (set<char>, set<(char, int)>))
    requires WellFormed(net) && ts != [] && IsNonterminal(ts[0])
    requires forall t :: t in ts ==> TransitionWellFormed(net, name, t)
    requires HasNetState(net, name, ts[0].dest) && HasNetState(net, ts[0].character, 0)
    requires first == FollowersFrom(net, name, ts[0].dest, visited, next)
    requires second == FollowersFrom(net, ts[0].character, 0, first.1, first.0)
    ensures FollowTransitions(net, name, ts, visited, next, acc)
            == FollowTransitions(net, name, ts[1..], second.1, next, acc + second.0)
  {
    FollowTransitionsTail(net, name, ts);
  }

  /**
   * `followers`: the search started with nothing visited. A final state yields all
   * of `next`, the terminal labels leaving the state are always among the result,
   * and nothing outside `next` and the net's terminals is ever reported.
   */
  method Followers(net: MachineNet, name: char, id: int, next: set<char>) returns (res: set<char>)
    requires WellFormed(net) && HasNetState(net, name, id)
    ensures res == FollowersFrom(net, name, id, {}, next).0
    ensures NetLookupState(net, name, id).isFinal ==> next <= res
    ensures forall t :: t in NetLookupState(net, name, id).transitions && !IsNonterminal(t) ==> t.character in res
    ensures res <= next + TerminalLabels(net)
  {
    var visited;
    res, visited := FollowersImpl(net, name, id, {}, next);
    FollowersFromBounds(net, name, id, {}, next);
  }
}
