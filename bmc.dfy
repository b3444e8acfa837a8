/**
 * Brzozowski–McCluskey state elimination: a finite-state machine is normalised into
 * one whose edges carry numbered regular expressions, with a fresh initial state -1 and
 * a fresh final state -2; parallel edges are merged into unions; an inner state is
 * chosen and eliminated by rewiring its predecessors to its successors.
 */
module Bmc {
  import opened Wrappers
  import opened Regex
  import opened Fsm
  import opened Util

  /** `BMCTransition`: an edge labelled by a regex. */
  datatype Edge = Edge(re: Regex, dest: int)

  /** `BMCState`; the state label is not part of this model. */
  datatype BState = BState(id: int, transitions: seq<Edge>, isInitial: bool, isFinal: bool)

  /** The ids of the two states `from_machine` adds. */
  const IniId: int := -1
  const FinId: int := -2

  // ---------------------------------------------------------------------------
  // from_machine
  // ---------------------------------------------------------------------------

  /** How many transitions of `ts` carry a letter rather than `_`. */
  function LetterCount(ts: seq<Transition>): nat
  {
    if ts == [] then 0 else LetterCount(ts[..|ts| - 1]) + (if IsEpsilon(ts[|ts| - 1]) then 0 else 1)
  }

  /** One converted transition, `i` being the counter before it: `_` is `Null`, a letter is numbered `i + 1`. */
  function ConvertEdge(t: Transition, i: nat): (e: Edge)
    ensures e.dest == t.dest
    ensures e.re == Null <==> IsEpsilon(t)
    ensures !IsEpsilon(t) ==> Literals(e.re) == [t.character] && LitIndices(e.re) == [i + 1]
  {
    if IsEpsilon(t) then Edge(Null, t.dest) else Edge(Literal(t.character, i + 1), t.dest)
  }

  /** The converted transitions of one state, in order, with the counter starting at `i`. */
  function ConvertEdges(ts: seq<Transition>, i: nat): (r: seq<Edge>)
    ensures |r| == |ts|
  {
    if ts == [] then [] else
      var init := ts[..|ts| - 1];
      ConvertEdges(init, i) + [ConvertEdge(ts[|ts| - 1], i + LetterCount(init))]
  }

  /** An old state: its converted transitions, then a `Null` edge to -2 if it was final; no flags. */
  function ConvertState(s: State, i: nat): (b: BState)
    ensures b.id == s.id && !b.isInitial && !b.isFinal
    ensures |b.transitions| == |s.transitions| + (if s.isFinal then 1 else 0)
    ensures s.isFinal ==> b.transitions[|s.transitions|] == Edge(Null, FinId)
  {
    BState(s.id, ConvertEdges(s.transitions, i) + (if s.isFinal then [Edge(Null, FinId)] else []), false, false)
  }

  /** How many letters all the states' transitions carry. */
  function StatesLetterCount(ss: seq<State>): nat
  {
    if ss == [] then 0 else StatesLetterCount(ss[..|ss| - 1]) + LetterCount(ss[|ss| - 1].transitions)
  }

  /** The old states converted in order, the counter running on from one state to the next. */
  function ConvertStates(ss: seq<State>, i: nat): (r: seq<BState>)
    ensures |r| == |ss|
  {
    if ss == [] then [] else
      var init := ss[..|ss| - 1];
      ConvertStates(init, i) + [ConvertState(ss[|ss| - 1], i + StatesLetterCount(init))]
  }

  /** The edges of state -1: a `Null` edge to every initial state, in order. */
  function InitialEdges(ss: seq<State>): seq<Edge>
  {
    if ss == [] then [] else
      InitialEdges(ss[..|ss| - 1]) + (if ss[|ss| - 1].isInitial then [Edge(Null, ss[|ss| - 1].id)] else [])
  }

  /** The machine `from_machine` builds: the old states, then -1 (initial) and -2 (final). */
  function Normalized(m: Machine): seq<BState>
  {
    ConvertStates(m.states, 0) + [BState(IniId, InitialEdges(m.states), true, false), BState(FinId, [], false, true)]
  }

  /** The transition loop of one state in `from_machine`, bumping the counter at each letter. */
  method ConvertTransitions(ts: seq<Transition>, i0: nat) returns (newTs: seq<Edge>, i: nat)
    ensures newTs == ConvertEdges(ts, i0) && i == i0 + LetterCount(ts)
  {
    newTs, i := [], i0;
    for k := 0 to |ts|
      invariant newTs == ConvertEdges(ts[..k], i0) && i == i0 + LetterCount(ts[..k])
    {
      assert ts[..k + 1][..k] == ts[..k];
      var re: Regex;
      if ts[k].character == '_' {
        re := Null;
      } else {
        i := i + 1;
        re := Literal(ts[k].character, i);
      }
      newTs := newTs + [Edge(re, ts[k].dest)];
    }
    assert ts[..|ts|] == ts;
  }

  /** The states of `from_machine`. */
  method NormalizeStates(m: Machine) returns (states: seq<BState>)
    ensures states == Normalized(m)
  {
    var i := 0;
    states := [];
    for k := 0 to |m.states|
      invariant states == ConvertStates(m.states[..k], 0) && i == StatesLetterCount(m.states[..k])
    {
      assert m.states[..k + 1][..k] == m.states[..k];
      var old_state := m.states[k];
      ghost var i0 := i;
      var newTs;
      newTs, i := ConvertTransitions(old_state.transitions, i);
      if old_state.isFinal {
        newTs := newTs + [Edge(Null, FinId)];
      } else {
        assert newTs == ConvertEdges(old_state.transitions, i0) + [];
      }
      assert BState(old_state.id, newTs, false, false) == ConvertState(old_state, i0);
      states := states + [BState(old_state.id, newTs, false, false)];
    }
    assert m.states[..|m.states|] == m.states;
    var ini := BState(IniId, InitialEdges(m.states), true, false);
    var fin := BState(FinId, [], false, true);
    states := states + [ini, fin];
  }

  /** The old states keep their ids and order; only -1 is initial and only -2 is final. */
  lemma NormalizedShape(m: Machine)
    ensures var r := Normalized(m);
      && |r| == |m.states| + 2
      && (forall k :: 0 <= k < |m.states| ==> r[k].id == m.states[k].id)
      && r[|m.states|].id == IniId && r[|m.states| + 1].id == FinId
      && (forall k :: 0 <= k < |r| ==> (r[k].isInitial <==> k == |m.states|))
      && (forall k :: 0 <= k < |r| ==> (r[k].isFinal <==> k == |m.states| + 1))
  {
    var r := Normalized(m);
    forall k | 0 <= k < |m.states|
      ensures r[k].id == m.states[k].id && !r[k].isInitial && !r[k].isFinal
    {
      ConvertStateAt(m.states, 0, k);
    }
  }

  /** The `k`-th converted state is the `k`-th old state converted with the letters before it counted. */
  lemma {:induction false} ConvertStateAt(ss: seq<State>, i: nat, k: nat)
    requires k < |ss|
    ensures ConvertStates(ss, i)[k] == ConvertState(ss[k], i + StatesLetterCount(ss[..k]))
  {
    var init := ss[..|ss| - 1];
    assert ConvertStates(ss, i) == ConvertStates(init, i) + [ConvertState(ss[|ss| - 1], i + StatesLetterCount(init))];
    if k < |init| {
      ConvertStateAt(init, i, k);
      assert ss[..k] == init[..k] && ss[k] == init[k];
    } else {
      assert ss[..k] == init;
    }
  }

  /** The `k`-th converted transition keeps its destination; `_` becomes `Null` and a letter its numbered literal. */
  lemma {:induction false} ConvertEdgeAt(ts: seq<Transition>, i: nat, k: nat)
    requires k < |ts|
    ensures ConvertEdges(ts, i)[k] == ConvertEdge(ts[k], i + LetterCount(ts[..k]))
  {
    var init := ts[..|ts| - 1];
    assert ConvertEdges(ts, i) == ConvertEdges(init, i) + [ConvertEdge(ts[|ts| - 1], i + LetterCount(init))];
    if k < |init| {
      ConvertEdgeAt(init, i, k);
      assert ts[..k] == init[..k] && ts[k] == init[k];
    } else {
      assert ts[..k] == init;
    }
  }

  /** State -1 has a `Null` edge to exactly the initial states. */
  lemma {:induction false} InitialEdgesMembers(ss: seq<State>)
    ensures forall e :: e in InitialEdges(ss) <==> e.re == Null && exists k :: 0 <= k < |ss| && ss[k].isInitial && ss[k].id == e.dest
  {
    if ss != [] {
      var init := ss[..|ss| - 1];
      InitialEdgesMembers(init);
      assert forall k :: 0 <= k < |init| ==> init[k] == ss[k];
    }
  }

  /** An old final state gains a `Null` edge to -2 after its own edges, an old non-final state nothing. */
  lemma FinalEdge(m: Machine, k: nat)
    requires k < |m.states|
    ensures var st := Normalized(m)[k];
      && |st.transitions| == |m.states[k].transitions| + (if m.states[k].isFinal then 1 else 0)
      && (m.states[k].isFinal ==> st.transitions[|st.transitions| - 1] == Edge(Null, FinId))
  {
    ConvertStateAt(m.states, 0, k);
  }

  // ---------------------------------------------------------------------------
  // The numbering of the literals
  // ---------------------------------------------------------------------------

  /** The literal indices on a list of edges, in order. */
  function EdgeIndices(es: seq<Edge>): seq<nat>
  {
    if es == [] then [] else EdgeIndices(es[..|es| - 1]) + LitIndices(es[|es| - 1].re)
  }

  /** The literal indices of all states' edges, state by state. */
  function StateIndices(ss: seq<BState>): seq<nat>
  {
    if ss == [] then [] else StateIndices(ss[..|ss| - 1]) + EdgeIndices(ss[|ss| - 1].transitions)
  }

  lemma EdgeIndicesSnoc(es: seq<Edge>, e: Edge)
    ensures EdgeIndices(es + [e]) == EdgeIndices(es) + LitIndices(e.re)
  {
    assert (es + [e])[..|es|] == es;
  }

  lemma StateIndicesSnoc(ss: seq<BState>, s: BState)
    ensures StateIndices(ss + [s]) == StateIndices(ss) + EdgeIndices(s.transitions)
  {
    assert (ss + [s])[..|ss|] == ss;
  }

  /** The letters of one state are numbered `i + 1, i + 2, …` in order. */
  lemma {:induction false} ConvertEdgesIndices(ts: seq<Transition>, i: nat)
    ensures EdgeIndices(ConvertEdges(ts, i)) == Interval(i + 1, i + LetterCount(ts) + 1)
  {
    if ts != [] {
      var init := ts[..|ts| - 1];
      var j := i + LetterCount(init);
      ConvertEdgesIndices(init, i);
      EdgeIndicesSnoc(ConvertEdges(init, i), ConvertEdge(ts[|ts| - 1], j));
      IntervalAppend(i + 1, j + 1, i + LetterCount(ts) + 1);
      if IsEpsilon(ts[|ts| - 1]) {
        assert Interval(j + 1, j + 1) == [];
      } else {
        assert Interval(j + 1, j + 2) == [j + 1] + Interval(j + 2, j + 2);
      }
    }
  }

  lemma {:induction false} ConvertStatesIndices(ss: seq<State>, i: nat)
    ensures StateIndices(ConvertStates(ss, i)) == Interval(i + 1, i + StatesLetterCount(ss) + 1)
  {
    if ss != [] {
      var init := ss[..|ss| - 1];
      var s := ss[|ss| - 1];
      var j := i + StatesLetterCount(init);
      ConvertStatesIndices(init, i);
      StateIndicesSnoc(ConvertStates(init, i), ConvertState(s, j));
      ConvertStateIndices(s, j);
      IntervalAppend(i + 1, j + 1, i + StatesLetterCount(ss) + 1);
    }
  }

  lemma ConvertStateIndices(s: State, j: nat)
    ensures EdgeIndices(ConvertState(s, j).transitions) == Interval(j + 1, j + LetterCount(s.transitions) + 1)
  {
    var es := ConvertEdges(s.transitions, j);
    ConvertEdgesIndices(s.transitions, j);
    if s.isFinal {
      EdgeIndicesSnoc(es, Edge(Null, FinId));
    } else {
      assert ConvertState(s, j).transitions == es + [] == es;
    }
  }

  lemma {:induction false} InitialEdgesNoLetters(ss: seq<State>)
    ensures EdgeIndices(InitialEdges(ss)) == []
  {
    if ss != [] {
      var init := ss[..|ss| - 1];
      InitialEdgesNoLetters(init);
      if ss[|ss| - 1].isInitial {
        EdgeIndicesSnoc(InitialEdges(init), Edge(Null, ss[|ss| - 1].id));
      } else {
        assert InitialEdges(ss) == InitialEdges(init) + [] == InitialEdges(init);
      }
    }
  }

  /** The letters of the whole machine are numbered 1, 2, 3, … in the order the states and their transitions are listed. */
  lemma NormalizedNumbering(m: Machine)
    ensures StateIndices(Normalized(m)) == Interval(1, StatesLetterCount(m.states) + 1)
  {
    var conv := ConvertStates(m.states, 0);
    var ini := BState(IniId, InitialEdges(m.states), true, false);
    var fin := BState(FinId, [], false, true);
    ConvertStatesIndices(m.states, 0);
    InitialEdgesNoLetters(m.states);
    StateIndicesSnoc(conv, ini);
    StateIndicesSnoc(conv + [ini], fin);
    assert StateIndices(conv + [ini]) == Interval(1, StatesLetterCount(m.states) + 1) + [];
    assert StateIndices(conv + [ini] + [fin]) == StateIndices(conv + [ini]) + [];
    assert Normalized(m) == conv + [ini] + [fin];
  }

  // ---------------------------------------------------------------------------
  // merge_parallel_transitions
  // ---------------------------------------------------------------------------

  /** The edges of `ts` that do not go to `d`, in order (also `retain(|t| t.dest_id != d)`). */
  function Others(ts: seq<Edge>, d: int): (r: seq<Edge>)
    ensures |r| <= |ts|
  {
    if ts == [] then [] else (if ts[0].dest == d then [] else [ts[0]]) + Others(ts[1..], d)
  }

  /** `acc`, then the label of every edge of `rest` that goes to `d`, joined into unions from the left. */
  function Gather(acc: Regex, rest: seq<Edge>, d: int): Regex
    decreases |rest|
  {
    if rest == [] then acc else Gather(if rest[0].dest == d then Union(acc, rest[0].re) else acc, rest[1..], d)
  }

  /** One edge per destination, in order of first appearance, labelled by the union of the parallel labels. */
  function Merged(ts: seq<Edge>): seq<Edge>
    decreases |ts|
  {
    if ts == [] then [] else
      var d := ts[0].dest;
      [Edge(Gather(ts[0].re, ts[1..], d), d)] + Merged(Others(ts[1..], d))
  }

  /** The labels of the edges of `ts` that go to `d`, in order. */
  function LabelsTo(ts: seq<Edge>, d: int): seq<Regex>
  {
    if ts == [] then [] else (if ts[0].dest == d then [ts[0].re] else []) + LabelsTo(ts[1..], d)
  }

  /** `Union(…Union(Union(l0, l1), l2)…, ln)`. */
  function UnionOf(ls: seq<Regex>): Regex
    requires ls != []
  {
    if |ls| == 1 then ls[0] else Union(UnionOf(ls[..|ls| - 1]), ls[|ls| - 1])
  }

  /** The destinations of a list of edges. */
  function Dests(ts: seq<Edge>): set<int>
  {
    set e | e in ts :: e.dest
  }

  /** The nested loops of `merge_parallel_transitions` on one state's edges. */
  method MergeEdges(ts: seq<Edge>) returns (res: seq<Edge>)
    ensures res == Merged(ts)
  {
    res := ts;
    var i := 0;
    while i < |res|
      invariant i <= |res|
      invariant res[..i] + Merged(res[i..]) == Merged(ts)
      decreases |res| - i
    {
      res := MergeStep(res, i);
      i := i + 1;
    }
    assert res[i..] == [];
  }

  /** One round of the outer loop: edge `i` absorbs the later edges to its destination. */
  method MergeStep(ts: seq<Edge>, i: nat) returns (res: seq<Edge>)
    requires i < |ts|
    ensures i < |res| <= |ts| && res[..i + 1] + Merged(res[i + 1..]) == ts[..i] + Merged(ts[i..])
  {
    MergedFrom(ts, i);
    res := MergeInto(ts, i);
    ghost var tail := Merged(res[i + 1..]);
    assert Merged(ts[i..]) == [res[i]] + tail;
    assert res[..i + 1] == ts[..i] + [res[i]];
    assert res[..i + 1] + tail == ts[..i] + ([res[i]] + tail);
  }

  lemma MergedFrom(ts: seq<Edge>, i: nat)
    requires i < |ts|
    ensures Merged(ts[i..]) == [Edge(Gather(ts[i].re, ts[i + 1..], ts[i].dest), ts[i].dest)] + Merged(Others(ts[i + 1..], ts[i].dest))
  {
    assert ts[i..][1..] == ts[i + 1..];
  }

  /** The inner loop: fold every later edge to the same destination into edge `i` and remove it. */
  method MergeInto(ts: seq<Edge>, i: nat) returns (res: seq<Edge>)
    requires i < |ts|
    ensures i < |res| <= |ts| && res[..i] == ts[..i]
    ensures res[i] == Edge(Gather(ts[i].re, ts[i + 1..], ts[i].dest), ts[i].dest)
    ensures res[i + 1..] == Others(ts[i + 1..], ts[i].dest)
  {
    res := ts;
    var d := res[i].dest;
    var j := i + 1;
    while j < |res|
      invariant i < j <= |res| && res[..i] == ts[..i] && res[i].dest == d
      invariant Gather(res[i].re, res[j..], d) == Gather(ts[i].re, ts[i + 1..], d)
      invariant res[i + 1..j] + Others(res[j..], d) == Others(ts[i + 1..], d)
      decreases |res| - j
    {
      ghost var before := res;
      assert before[j..] == [before[j]] + before[j + 1..];
      if res[i].dest == res[j].dest {
        res := Absorb(res, i, j);
      } else {
        assert res[i + 1..j + 1] == res[i + 1..j] + [res[j]];
        j := j + 1;
      }
    }
    assert res[j..] == [] && res[i + 1..j] == res[i + 1..];
  }

  /** One step of the inner loop: edge `j` is folded into edge `i` and removed. */
  method Absorb(ts: seq<Edge>, i: nat, j: nat) returns (res: seq<Edge>)
    requires i < j < |ts|
    ensures |res| == |ts| - 1 && res[..i] == ts[..i] && res[i + 1..j] == ts[i + 1..j] && res[j..] == ts[j + 1..]
    ensures res[i] == Edge(Union(ts[i].re, ts[j].re), ts[i].dest)
  {
    var merged := Union(ts[i].re, ts[j].re);
    res := ts[i := ts[i].(re := merged)];
    res := res[..j] + res[j + 1..];
  }

  lemma {:induction false} DestsOthers(ts: seq<Edge>, d: int)
    ensures Dests(Others(ts, d)) == Dests(ts) - {d}
  {
    if ts != [] {
      DestsOthers(ts[1..], d);
      assert ts == [ts[0]] + ts[1..];
      assert Dests(ts) == {ts[0].dest} + Dests(ts[1..]);
      if ts[0].dest != d {
        assert Dests(Others(ts, d)) == {ts[0].dest} + Dests(Others(ts[1..], d));
      }
    }
  }

  /** Merging keeps the set of destinations. */
  lemma {:induction false} MergedDests(ts: seq<Edge>)
    ensures Dests(Merged(ts)) == Dests(ts)
    decreases |ts|
  {
    if ts != [] {
      var d, rest := ts[0].dest, ts[1..];
      var o := Others(rest, d);
      MergedDests(o);
      DestsOthers(rest, d);
      assert ts == [ts[0]] + rest;
      assert Dests(ts) == {d} + Dests(rest);
      var e := Edge(Gather(ts[0].re, rest, d), d);
      assert Merged(ts) == [e] + Merged(o);
      assert Dests(Merged(ts)) == {d} + Dests(Merged(o));
    }
  }

  /** After merging, no two edges share a destination. */
  lemma {:induction false} MergedDistinct(ts: seq<Edge>)
    ensures forall a, b :: 0 <= a < b < |Merged(ts)| ==> Merged(ts)[a].dest != Merged(ts)[b].dest
    decreases |ts|
  {
    if ts != [] {
      var d, rest := ts[0].dest, ts[1..];
      var o := Others(rest, d);
      var r := Merged(ts);
      MergedDistinct(o);
      MergedDests(o);
      DestsOthers(rest, d);
      assert r == [Edge(Gather(ts[0].re, rest, d), d)] + Merged(o);
      forall a, b | 0 <= a < b < |r|
        ensures r[a].dest != r[b].dest
      {
        assert r[b] == Merged(o)[b - 1];
        assert r[b].dest in Dests(Merged(o));
        if a > 0 {
          assert r[a] == Merged(o)[a - 1];
        }
      }
    }
  }

  lemma {:induction false} UnionOfHead(a: Regex, b: Regex, ls: seq<Regex>)
    ensures UnionOf([Union(a, b)] + ls) == UnionOf([a, b] + ls)
    decreases |ls|
  {
    if ls != [] {
      var init := ls[..|ls| - 1];
      UnionOfHead(a, b, init);
      assert ([Union(a, b)] + ls)[..|ls|] == [Union(a, b)] + init;
      assert ([a, b] + ls)[..|ls| + 1] == [a, b] + init;
    } else {
      assert [a, b][..1] == [a];
    }
  }

  /** `Gather` is the union of `acc` and the labels of the parallel edges, from the left. */
  lemma {:induction false} GatherIsUnion(acc: Regex, rest: seq<Edge>, d: int)
    ensures Gather(acc, rest, d) == UnionOf([acc] + LabelsTo(rest, d))
    decreases |rest|
  {
    if rest == [] {
    } else if rest[0].dest == d {
      GatherIsUnion(Union(acc, rest[0].re), rest[1..], d);
      UnionOfHead(acc, rest[0].re, LabelsTo(rest[1..], d));
      assert [acc] + LabelsTo(rest, d) == [acc, rest[0].re] + LabelsTo(rest[1..], d);
    } else {
      GatherIsUnion(acc, rest[1..], d);
      assert LabelsTo(rest, d) == [] + LabelsTo(rest[1..], d) == LabelsTo(rest[1..], d);
    }
  }

  lemma {:induction false} LabelsToOthers(ts: seq<Edge>, d: int, d': int)
    requires d != d'
    ensures LabelsTo(Others(ts, d), d') == LabelsTo(ts, d')
  {
    if ts != [] {
      LabelsToOthers(ts[1..], d, d');
      if ts[0].dest != d {
        var o := Others(ts, d);
        assert o == [ts[0]] + Others(ts[1..], d);
        assert o[1..] == Others(ts[1..], d);
      } else {
        assert Others(ts, d) == [] + Others(ts[1..], d) == Others(ts[1..], d);
        assert LabelsTo(ts, d') == [] + LabelsTo(ts[1..], d') == LabelsTo(ts[1..], d');
      }
    }
  }

  /** Each merged edge is labelled by the union, from the left, of the labels of all edges to its destination. */
  lemma {:induction false} MergedLabels(ts: seq<Edge>)
    ensures forall a :: 0 <= a < |Merged(ts)| ==>
      LabelsTo(ts, Merged(ts)[a].dest) != [] && Merged(ts)[a].re == UnionOf(LabelsTo(ts, Merged(ts)[a].dest))
    decreases |ts|
  {
    if ts != [] {
      var d, rest := ts[0].dest, ts[1..];
      var o := Others(rest, d);
      var r := Merged(ts);
      MergedLabels(o);
      MergedDests(o);
      DestsOthers(rest, d);
      GatherIsUnion(ts[0].re, rest, d);
      assert r == [Edge(Gather(ts[0].re, rest, d), d)] + Merged(o);
      forall a | 0 <= a < |r|
        ensures LabelsTo(ts, r[a].dest) != [] && r[a].re == UnionOf(LabelsTo(ts, r[a].dest))
      {
        if a == 0 {
          assert LabelsTo(ts, d) == [ts[0].re] + LabelsTo(rest, d);
        } else {
          var e := Merged(o)[a - 1];
          assert r[a] == e;
          assert e.dest in Dests(Merged(o));
          LabelsToOthers(rest, d, e.dest);
          assert LabelsTo(ts, e.dest) == LabelsTo(rest, e.dest);
        }
      }
    }
  }

  // ---------------------------------------------------------------------------
  // choose_best_state and eliminate: the specification
  // ---------------------------------------------------------------------------

  /** The state ids, in order. */
  function Ids(ss: seq<BState>): (r: seq<int>)
    ensures |r| == |ss| && forall k :: 0 <= k < |ss| ==> r[k] == ss[k].id
  {
    if ss == [] then [] else Ids(ss[..|ss| - 1]) + [ss[|ss| - 1].id]
  }

  /** The position of the first state with the given id (`lookup_state`). */
  function IndexOf(ss: seq<BState>, id: int): (k: nat)
    requires id in Ids(ss)
    ensures k < |ss| && ss[k].id == id && forall j :: 0 <= j < k ==> ss[j].id != id
  {
    var init := ss[..|ss| - 1];
    if id in Ids(init) then IndexOf(init, id) else |ss| - 1
  }

  /** The edges of `ts` that go to `d`, in order. */
  function Into(ts: seq<Edge>, d: int): seq<Edge>
  {
    if ts == [] then [] else (if ts[0].dest == d then [ts[0]] else []) + Into(ts[1..], d)
  }

  /** The edges of one state into `id`, each paired with the state's id. */
  function EdgesInto(src: int, ts: seq<Edge>, id: int): (r: seq<(int, Edge)>)
    ensures forall j :: 0 <= j < |r| ==> r[j].0 == src && r[j].1 in ts && r[j].1.dest == id
  {
    if ts == [] then [] else
      EdgesInto(src, ts[..|ts| - 1], id) + (if ts[|ts| - 1].dest == id then [(src, ts[|ts| - 1])] else [])
  }

  /** `transitions_to`: every edge entering `id` with its source's id, state by state and edge by edge. */
  function TransitionsTo(ss: seq<BState>, id: int): (r: seq<(int, Edge)>)
    ensures forall j :: 0 <= j < |r| ==> r[j].0 in Ids(ss) && r[j].1.dest == id
  {
    if ss == [] then [] else
      var init := ss[..|ss| - 1];
      var s := ss[|ss| - 1];
      assert forall x :: x in Ids(init) ==> x in Ids(ss);
      TransitionsTo(init, id) + EdgesInto(s.id, s.transitions, id)
  }

  /** How many of the pairs come from a state other than `id`. */
  function ForeignCount(ps: seq<(int, Edge)>, id: int): nat
  {
    if ps == [] then 0 else ForeignCount(ps[..|ps| - 1], id) + (if ps[|ps| - 1].0 != id then 1 else 0)
  }

  /** The key `choose_best_state` minimises: in-edges from other states times out-edges to other states. */
  function Cost(ss: seq<BState>, s: BState): nat
  {
    ForeignCount(TransitionsTo(ss, s.id), s.id) * |Others(s.transitions, s.id)|
  }

  /** A state that may be eliminated: neither initial nor final. */
  predicate Inner(s: BState)
  {
    !(s.isFinal || s.isInitial)
  }

  /** The cost of every state, in order. */
  function Costs(ss: seq<BState>): (r: seq<nat>)
    ensures |r| == |ss|
  {
    seq(|ss|, j requires 0 <= j < |ss| => Cost(ss, ss[j]))
  }

  /** `min_by_key` over the inner states among the first `n`, keyed by `cs`: the first one of least key. */
  function BestIn(ss: seq<BState>, cs: seq<nat>, n: nat): (r: Option<nat>)
    requires n <= |ss| == |cs|
    ensures r.None? <==> forall j :: 0 <= j < n ==> !Inner(ss[j])
    ensures r.Some? ==> r.value < n && Inner(ss[r.value])
    ensures r.Some? ==> forall j :: 0 <= j < n && Inner(ss[j]) ==> cs[r.value] <= cs[j]
    ensures r.Some? ==> forall j :: 0 <= j < r.value && Inner(ss[j]) ==> cs[r.value] < cs[j]
  {
    if n == 0 then None else
      var b := BestIn(ss, cs, n - 1);
      if !Inner(ss[n - 1]) then b
      else if b.None? || cs[n - 1] < cs[b.value] then Some(n - 1)
      else b
  }

  /** The label that leads into the eliminated state, followed by its self-loop's star when it has one. */
  function Lhs(t1: Edge, loops: seq<Edge>): Regex
  {
    if |loops| > 0 then Concat(t1.re, Star(loops[0].re)) else t1.re
  }

  /** One bypass edge per outgoing edge: `lhs` then that edge's label, to that edge's destination. */
  function Bypass(lhs: Regex, outs: seq<Edge>): (r: seq<Edge>)
    ensures |r| == |outs| && forall j :: 0 <= j < |r| ==> r[j] == Edge(Concat(lhs, outs[j].re), outs[j].dest)
  {
    if outs == [] then [] else Bypass(lhs, outs[..|outs| - 1]) + [Edge(Concat(lhs, outs[|outs| - 1].re), outs[|outs| - 1].dest)]
  }

  /** For every incoming pair, its source and the bypass edges it gets. */
  function NewEdges(tIn: seq<(int, Edge)>, loops: seq<Edge>, outs: seq<Edge>): (r: seq<(int, seq<Edge>)>)
    ensures |r| == |tIn| && forall j :: 0 <= j < |r| ==> r[j] == (tIn[j].0, Bypass(Lhs(tIn[j].1, loops), outs))
  {
    if tIn == [] then [] else
      var last := tIn[|tIn| - 1];
      NewEdges(tIn[..|tIn| - 1], loops, outs) + [(last.0, Bypass(Lhs(last.1, loops), outs))]
  }

  /** The first state with id `src` drops its edges into `sId` and gains `ts`. */
  function Retarget(ss: seq<BState>, src: int, ts: seq<Edge>, sId: int): (r: seq<BState>)
    requires src in Ids(ss)
    ensures Ids(r) == Ids(ss)
  {
    var k := IndexOf(ss, src);
    ss[k := ss[k].(transitions := Others(ss[k].transitions, sId) + ts)]
  }

  /** The second loop of `eliminate`: every pair applied in order. */
  function Rewire(ss: seq<BState>, ps: seq<(int, seq<Edge>)>, sId: int): (r: seq<BState>)
    requires forall j :: 0 <= j < |ps| ==> ps[j].0 in Ids(ss)
    ensures Ids(r) == Ids(ss)
  {
    if ps == [] then ss else
      var last := ps[|ps| - 1];
      Retarget(Rewire(ss, ps[..|ps| - 1], sId), last.0, last.1, sId)
  }

  /** `retain(|s| s.id != sId)` on the states. */
  function WithoutState(ss: seq<BState>, sId: int): seq<BState>
  {
    if ss == [] then [] else
      WithoutState(ss[..|ss| - 1], sId) + (if ss[|ss| - 1].id != sId then [ss[|ss| - 1]] else [])
  }

  /** What the first loop of `eliminate(sId)` collects. */
  function BypassPairs(ss: seq<BState>, sId: int): seq<(int, seq<Edge>)>
    requires sId in Ids(ss)
  {
    var s := ss[IndexOf(ss, sId)];
    NewEdges(TransitionsTo(ss, sId), Into(s.transitions, sId), Others(s.transitions, sId))
  }

  /** The states after `eliminate(sId)`. */
  function Eliminated(ss: seq<BState>, sId: int): seq<BState>
    requires sId in Ids(ss)
  {
    WithoutState(Rewire(ss, BypassPairs(ss, sId), sId), sId)
  }

  /** The first loop of `eliminate`: the bypass edges of every incoming pair. */
  method CollectNewEdges(tIn: seq<(int, Edge)>, tLoop: seq<Edge>, tOut: seq<Edge>) returns (allNew: seq<(int, seq<Edge>)>)
    ensures allNew == NewEdges(tIn, tLoop, tOut)
  {
    allNew := [];
    for k := 0 to |tIn|
      invariant allNew == NewEdges(tIn[..k], tLoop, tOut)
    {
      assert tIn[..k + 1][..k] == tIn[..k];
      var (srcId, t1) := tIn[k];
      var lhs := if |tLoop| > 0 then Concat(t1.re, Star(tLoop[0].re)) else t1.re;
      var newTs := BypassEdges(lhs, tOut);
      allNew := allNew + [(srcId, newTs)];
    }
    assert tIn[..|tIn|] == tIn;
  }

  /** The inner loop of `eliminate`. */
  method BypassEdges(lhs: Regex, outs: seq<Edge>) returns (newTs: seq<Edge>)
    ensures newTs == Bypass(lhs, outs)
  {
    newTs := [];
    for q := 0 to |outs|
      invariant newTs == Bypass(lhs, outs[..q])
    {
      assert outs[..q + 1][..q] == outs[..q];
      newTs := newTs + [Edge(Concat(lhs, outs[q].re), outs[q].dest)];
    }
    assert outs[..|outs|] == outs;
  }

  /** A machine of the elimination: its name, its generation number and its states. */
  class BmcMachine {
    const name: char
    var genId: nat
    var states: seq<BState>

    /** `from_machine`: generation 1 of the normalised machine. */
    constructor FromMachine(m: Machine)
      ensures name == m.name && genId == 1 && states == Normalized(m)
    {
      var ss := NormalizeStates(m);
      name := m.name;
      genId := 1;
      states := ss;
    }

    /** `merge_parallel_transitions`: every state's edges merged; nothing else changes. */
    method MergeParallelTransitions()
      modifies this
      ensures |states| == |old(states)| && genId == old(genId)
      ensures forall k :: 0 <= k < |states| ==> states[k] == old(states)[k].(transitions := Merged(old(states)[k].transitions))
    {
      for k := 0 to |states|
        invariant |states| == |old(states)| && genId == old(genId)
        invariant forall q :: 0 <= q < k ==> states[q] == old(states)[q].(transitions := Merged(old(states)[q].transitions))
        invariant forall q :: k <= q < |states| ==> states[q] == old(states)[q]
      {
        var merged := MergeEdges(states[k].transitions);
        states := states[k := states[k].(transitions := merged)];
      }
    }

    /** `choose_best_state`: none when every state is initial or final, else the id of the first inner state of least cost. */
    function ChooseBestState(): (r: Option<int>)
      reads this
      ensures r.None? <==> forall k :: 0 <= k < |states| ==> states[k].isFinal || states[k].isInitial
      ensures r.Some? ==> exists k :: (0 <= k < |states| && states[k].id == r.value && Inner(states[k])
        && (forall j :: 0 <= j < |states| && Inner(states[j]) ==> Costs(states)[k] <= Costs(states)[j])
        && (forall j :: 0 <= j < k && Inner(states[j]) ==> Costs(states)[k] < Costs(states)[j]))
    {
      var cs := Costs(states);
      var b := BestIn(states, cs, |states|);
      if b.None? then None else
        Some(states[b.value].id)
    }

    /** The second loop of `eliminate`: each source drops its edges into `sId` and gains its bypass edges. */
    method RewireAll(allNew: seq<(int, seq<Edge>)>, sId: int)
      requires forall j :: 0 <= j < |allNew| ==> allNew[j].0 in Ids(states)
      modifies this
      ensures states == Rewire(old(states), allNew, sId) && genId == old(genId)
    {
      for k := 0 to |allNew|
        invariant states == Rewire(old(states), allNew[..k], sId) && genId == old(genId)
      {
        assert allNew[..k + 1][..k] == allNew[..k];
        var (srcId, ts) := allNew[k];
        var idx := IndexOf(states, srcId);
        states := states[idx := states[idx].(transitions := Others(states[idx].transitions, sId) + ts)];
      }
      assert allNew[..|allNew|] == allNew;
    }

    /** `eliminate`: the state must exist and have at most one self-loop. */
    method Eliminate(sId: int)
      requires sId in Ids(states)
      requires |Into(states[IndexOf(states, sId)].transitions, sId)| < 2
      modifies this
      ensures states == Eliminated(old(states), sId) && genId == old(genId) + 1
    {
      var tIn := TransitionsTo(states, sId);
      var s := states[IndexOf(states, sId)];
      var tOut := Others(s.transitions, sId);
      var tLoop := Into(s.transitions, sId);
      var allNew := CollectNewEdges(tIn, tLoop, tOut);
      RewireAll(allNew, sId);
      states := WithoutState(states, sId);
      genId := genId + 1;
    }
  }

  // ---------------------------------------------------------------------------
  // What eliminate does
  // ---------------------------------------------------------------------------

  lemma {:induction false} OthersMembers(ts: seq<Edge>, d: int)
    ensures forall e :: e in Others(ts, d) <==> e in ts && e.dest != d
  {
    if ts != [] {
      OthersMembers(ts[1..], d);
      assert ts == [ts[0]] + ts[1..];
    }
  }

  lemma {:induction false} IntoMembers(ts: seq<Edge>, d: int)
    ensures forall e :: e in Into(ts, d) <==> e in ts && e.dest == d
  {
    if ts != [] {
      IntoMembers(ts[1..], d);
      assert ts == [ts[0]] + ts[1..];
    }
  }

  lemma {:induction false} OthersAppend(a: seq<Edge>, b: seq<Edge>, d: int)
    ensures Others(a + b, d) == Others(a, d) + Others(b, d)
  {
    if a != [] {
      OthersAppend(a[1..], b, d);
      assert (a + b)[1..] == a[1..] + b;
    } else {
      assert a + b == b;
    }
  }

  /** Edges that avoid `d` are all kept. */
  lemma {:induction false} OthersNone(ts: seq<Edge>, d: int)
    requires forall e :: e in ts ==> e.dest != d
    ensures Others(ts, d) == ts
  {
    if ts != [] {
      assert forall e :: e in ts[1..] ==> e in ts;
      OthersNone(ts[1..], d);
      assert ts == [ts[0]] + ts[1..];
    }
  }

  /** The states removed by `retain` are exactly those with id `sId`. */
  lemma {:induction false} WithoutStateMembers(ss: seq<BState>, sId: int)
    ensures forall st :: st in WithoutState(ss, sId) <==> st in ss && st.id != sId
  {
    if ss != [] {
      var init := ss[..|ss| - 1];
      WithoutStateMembers(init, sId);
      assert ss == init + [ss[|ss| - 1]];
    }
  }

  /** The source ids that occur among the pairs. */
  predicate FromSource(ps: seq<(int, seq<Edge>)>, src: int)
  {
    exists j :: 0 <= j < |ps| && ps[j].0 == src
  }

  /** The new edges of one source, pair by pair. */
  function FlatFor(ps: seq<(int, seq<Edge>)>, src: int): seq<Edge>
  {
    if ps == [] then [] else
      FlatFor(ps[..|ps| - 1], src) + (if ps[|ps| - 1].0 == src then ps[|ps| - 1].1 else [])
  }

  lemma {:induction false} FlatForMembers(ps: seq<(int, seq<Edge>)>, src: int)
    ensures forall e :: e in FlatFor(ps, src) <==> exists j :: 0 <= j < |ps| && ps[j].0 == src && e in ps[j].1
  {
    if ps != [] {
      var init := ps[..|ps| - 1];
      FlatForMembers(init, src);
      assert forall j :: 0 <= j < |init| ==> init[j] == ps[j];
    }
  }

  /** No new edge goes to `sId`. */
  predicate AvoidsState(ps: seq<(int, seq<Edge>)>, sId: int)
  {
    forall j, e :: 0 <= j < |ps| && e in ps[j].1 ==> e.dest != sId
  }

  lemma RetargetAt(ss: seq<BState>, src: int, ts: seq<Edge>, sId: int, k: nat)
    requires NoDup(Ids(ss)) && src in Ids(ss) && k < |ss|
    ensures Retarget(ss, src, ts, sId)[k] ==
      if ss[k].id == src then ss[k].(transitions := Others(ss[k].transitions, sId) + ts) else ss[k]
  {
    var i := IndexOf(ss, src);
    if ss[k].id == src {
      assert Ids(ss)[i] == Ids(ss)[k];
    }
  }

  /**
   * With distinct ids, the `k`-th state after the second loop of `eliminate`: unchanged if it is no
   * source, else without its edges into `sId` and followed by all its new edges in order.
   */
  lemma {:induction false} RewireAt(ss: seq<BState>, ps: seq<(int, seq<Edge>)>, sId: int, k: nat)
    requires NoDup(Ids(ss)) && k < |ss| && AvoidsState(ps, sId)
    requires forall j :: 0 <= j < |ps| ==> ps[j].0 in Ids(ss)
    ensures Rewire(ss, ps, sId)[k] ==
      if FromSource(ps, ss[k].id) then ss[k].(transitions := Others(ss[k].transitions, sId) + FlatFor(ps, ss[k].id))
      else ss[k]
  {
    if ps != [] {
      var init, last := ps[..|ps| - 1], ps[|ps| - 1];
      var r' := Rewire(ss, init, sId);
      var x, orig := ss[k].id, ss[k].transitions;
      assert forall j :: 0 <= j < |init| ==> init[j] == ps[j];
      RewireAt(ss, init, sId, k);
      RetargetAt(r', last.0, last.1, sId, k);
      FromSourceSnoc(ps, x);
      if last.0 == x {
        if FromSource(init, x) {
          RetargetTwice(orig, FlatFor(init, x), last.1, sId, init, x);
        } else {
          FlatForNone(init, x);
          assert r'[k] == ss[k];
          assert FlatFor(ps, x) == [] + last.1 == last.1;
        }
      } else {
        assert FlatFor(ps, x) == FlatFor(init, x) + [] == FlatFor(init, x);
        assert Rewire(ss, ps, sId)[k] == r'[k];
      }
    }
  }

  lemma FromSourceSnoc(ps: seq<(int, seq<Edge>)>, x: int)
    requires ps != []
    ensures FromSource(ps, x) <==> FromSource(ps[..|ps| - 1], x) || ps[|ps| - 1].0 == x
  {
    var init := ps[..|ps| - 1];
    assert forall j :: 0 <= j < |init| ==> init[j] == ps[j];
  }

  /** A source met again: its edges into `sId` are already gone, so only the new ones are added. */
  lemma RetargetTwice(orig: seq<Edge>, flat: seq<Edge>, more: seq<Edge>, sId: int, init: seq<(int, seq<Edge>)>, x: int)
    requires flat == FlatFor(init, x) && AvoidsState(init, sId)
    ensures Others(Others(orig, sId) + flat, sId) + more == Others(orig, sId) + (flat + more)
  {
    FlatForMembers(init, x);
    OthersAppend(Others(orig, sId), flat, sId);
    OthersMembers(orig, sId);
    OthersNone(Others(orig, sId), sId);
    OthersNone(flat, sId);
  }

  lemma {:induction false} FlatForNone(ps: seq<(int, seq<Edge>)>, src: int)
    requires !FromSource(ps, src)
    ensures FlatFor(ps, src) == []
  {
    if ps != [] {
      var init := ps[..|ps| - 1];
      assert forall j :: 0 <= j < |init| ==> init[j] == ps[j];
      FlatForNone(init, src);
    }
  }

  lemma {:induction false} EdgesIntoMembers(src: int, ts: seq<Edge>, id: int)
    ensures forall p :: p in EdgesInto(src, ts, id) <==> p.0 == src && p.1 in ts && p.1.dest == id
  {
    if ts != [] {
      var init := ts[..|ts| - 1];
      EdgesIntoMembers(src, init, id);
      assert ts == init + [ts[|ts| - 1]];
    }
  }

  /** `transitions_to` lists exactly the edges into `id`, each with its source's id. */
  lemma {:induction false} TransitionsToMembers(ss: seq<BState>, id: int)
    ensures forall p :: p in TransitionsTo(ss, id) <==>
      exists k :: 0 <= k < |ss| && ss[k].id == p.0 && p.1 in ss[k].transitions && p.1.dest == id
  {
    if ss != [] {
      var init, s := ss[..|ss| - 1], ss[|ss| - 1];
      TransitionsToMembers(init, id);
      EdgesIntoMembers(s.id, s.transitions, id);
      assert forall k :: 0 <= k < |init| ==> init[k] == ss[k];
    }
  }

  /** The new edges never go to the eliminated state. */
  lemma {:induction false} BypassPairsAvoid(ss: seq<BState>, sId: int)
    requires sId in Ids(ss)
    ensures AvoidsState(BypassPairs(ss, sId), sId)
  {
    var s := ss[IndexOf(ss, sId)];
    var outs := Others(s.transitions, sId);
    var ps := BypassPairs(ss, sId);
    OthersMembers(s.transitions, sId);
    forall j, e | 0 <= j < |ps| && e in ps[j].1
      ensures e.dest != sId
    {
      var q :| 0 <= q < |ps[j].1| && ps[j].1[q] == e;
      assert outs[q] in outs;
    }
  }

  /** A bypass edge of `src`: an edge of `src` into `sId`, then an edge of `sId` elsewhere, through the self-loop's star. */
  ghost predicate Bypassed(ss: seq<BState>, sId: int, src: BState, e: Edge)
    requires sId in Ids(ss)
  {
    var s := ss[IndexOf(ss, sId)];
    exists t1, t2 :: t1 in src.transitions && t1.dest == sId && t2 in s.transitions && t2.dest != sId
      && e == Edge(Concat(Lhs(t1, Into(s.transitions, sId)), t2.re), t2.dest)
  }

  /** With distinct ids, a state is a source of new edges exactly when it has an edge into `sId`. */
  lemma {:induction false} SourceIff(ss: seq<BState>, sId: int, k: nat)
    requires NoDup(Ids(ss)) && sId in Ids(ss) && k < |ss|
    ensures FromSource(BypassPairs(ss, sId), ss[k].id) <==> exists t1 :: t1 in ss[k].transitions && t1.dest == sId
  {
    var tIn := TransitionsTo(ss, sId);
    var ps := BypassPairs(ss, sId);
    var x := ss[k].id;
    if FromSource(ps, x) {
      var j :| 0 <= j < |ps| && ps[j].0 == x;
      assert tIn[j] in tIn;
      SourceOf(ss, sId, tIn[j], k);
    }
    if t1 :| t1 in ss[k].transitions && t1.dest == sId {
      TransitionsToHas(ss, sId, k, t1);
      var j :| 0 <= j < |tIn| && tIn[j] == (x, t1);
      assert ps[j].0 == x;
    }
  }

  /** Every edge into `id` appears in `transitions_to`, paired with its source's id. */
  lemma {:induction false} TransitionsToHas(ss: seq<BState>, id: int, k: nat, t: Edge)
    requires k < |ss| && t in ss[k].transitions && t.dest == id
    ensures (ss[k].id, t) in TransitionsTo(ss, id)
  {
    TransitionsToMembers(ss, id);
  }

  /** With distinct ids, a pair of `transitions_to` naming the id of state `k` holds one of its edges. */
  lemma {:induction false} SourceOf(ss: seq<BState>, id: int, p: (int, Edge), k: nat)
    requires NoDup(Ids(ss)) && k < |ss| && p in TransitionsTo(ss, id) && p.0 == ss[k].id
    ensures p.1 in ss[k].transitions && p.1.dest == id
  {
    TransitionsToMembers(ss, id);
    var k' :| 0 <= k' < |ss| && ss[k'].id == p.0 && p.1 in ss[k'].transitions && p.1.dest == id;
    assert Ids(ss)[k'] == Ids(ss)[k];
  }

  lemma {:induction false} FlatForToBypassed(ss: seq<BState>, sId: int, k: nat, e: Edge)
    requires NoDup(Ids(ss)) && sId in Ids(ss) && k < |ss|
    requires e in FlatFor(BypassPairs(ss, sId), ss[k].id)
    ensures Bypassed(ss, sId, ss[k], e)
  {
    var s := ss[IndexOf(ss, sId)];
    var loops, outs := Into(s.transitions, sId), Others(s.transitions, sId);
    var tIn := TransitionsTo(ss, sId);
    var ps := BypassPairs(ss, sId);
    var x := ss[k].id;
    FlatForMembers(ps, x);
    var j :| 0 <= j < |ps| && ps[j].0 == x && e in ps[j].1;
    var t1 := tIn[j].1;
    assert ps[j] == (tIn[j].0, Bypass(Lhs(t1, loops), outs));
    var q :| 0 <= q < |ps[j].1| && ps[j].1[q] == e;
    var t2 := outs[q];
    assert e == Edge(Concat(Lhs(t1, loops), t2.re), t2.dest);
    SourceOf(ss, sId, tIn[j], k);
    OthersMembers(s.transitions, sId);
    assert t2 in outs;
  }

  lemma {:induction false} BypassedToFlatFor(ss: seq<BState>, sId: int, k: nat, t1: Edge, t2: Edge)
    requires sId in Ids(ss) && k < |ss|
    requires t1 in ss[k].transitions && t1.dest == sId
    requires t2 in ss[IndexOf(ss, sId)].transitions && t2.dest != sId
    ensures Edge(Concat(Lhs(t1, Into(ss[IndexOf(ss, sId)].transitions, sId)), t2.re), t2.dest)
      in FlatFor(BypassPairs(ss, sId), ss[k].id)
  {
    var s := ss[IndexOf(ss, sId)];
    var loops, outs := Into(s.transitions, sId), Others(s.transitions, sId);
    var tIn := TransitionsTo(ss, sId);
    var ps := BypassPairs(ss, sId);
    var x := ss[k].id;
    TransitionsToHas(ss, sId, k, t1);
    var j :| 0 <= j < |tIn| && tIn[j] == (x, t1);
    OthersMembers(s.transitions, sId);
    assert t2 in outs;
    var q :| 0 <= q < |outs| && outs[q] == t2;
    assert ps[j].1[q] == Edge(Concat(Lhs(t1, loops), t2.re), t2.dest);
    FlatForMembers(ps, x);
  }

  /** With distinct ids, the new edges of a state are exactly its bypass edges. */
  lemma {:induction false} FlatForBypassed(ss: seq<BState>, sId: int, k: nat)
    requires NoDup(Ids(ss)) && sId in Ids(ss) && k < |ss|
    ensures forall e :: e in FlatFor(BypassPairs(ss, sId), ss[k].id) <==> Bypassed(ss, sId, ss[k], e)
  {
    var s := ss[IndexOf(ss, sId)];
    var loops := Into(s.transitions, sId);
    var ps := BypassPairs(ss, sId);
    var x := ss[k].id;
    forall e
      ensures e in FlatFor(ps, x) <==> Bypassed(ss, sId, ss[k], e)
    {
      if e in FlatFor(ps, x) {
        FlatForToBypassed(ss, sId, k, e);
      }
      if Bypassed(ss, sId, ss[k], e) {
        var t1, t2 :| t1 in ss[k].transitions && t1.dest == sId && t2 in s.transitions && t2.dest != sId
          && e == Edge(Concat(Lhs(t1, loops), t2.re), t2.dest);
        BypassedToFlatFor(ss, sId, k, t1, t2);
      }
    }
  }

  /** `st` is `s0` after the elimination of `sId`: same id and flags, its edges that avoid `sId`, and its bypass edges. */
  ghost predicate RewiredAs(st: BState, s0: BState, ss: seq<BState>, sId: int)
    requires sId in Ids(ss)
  {
    st.id == s0.id && st.isInitial == s0.isInitial && st.isFinal == s0.isFinal
    && forall e :: e in st.transitions <==> (e in s0.transitions && e.dest != sId) || Bypassed(ss, sId, s0, e)
  }

  lemma {:induction false} RewiredState(ss: seq<BState>, sId: int, k: nat)
    requires NoDup(Ids(ss)) && sId in Ids(ss) && k < |ss|
    ensures RewiredAs(Rewire(ss, BypassPairs(ss, sId), sId)[k], ss[k], ss, sId)
  {
    var ps := BypassPairs(ss, sId);
    var x, orig := ss[k].id, ss[k].transitions;
    BypassPairsAvoid(ss, sId);
    RewireAt(ss, ps, sId, k);
    SourceIff(ss, sId, k);
    OthersMembers(orig, sId);
    if FromSource(ps, x) {
      FlatForBypassed(ss, sId, k);
      var ts := Others(orig, sId) + FlatFor(ps, x);
      assert forall e :: e in ts <==> e in Others(orig, sId) || e in FlatFor(ps, x);
    } else {
      forall e | Bypassed(ss, sId, ss[k], e)
        ensures false
      {
      }
    }
  }

  /** `eliminate` on distinct ids: every other state survives, rewired as `RewiredAs` says. */
  lemma {:induction false} EliminateRewires(ss: seq<BState>, sId: int, k: nat)
    requires NoDup(Ids(ss)) && sId in Ids(ss) && k < |ss| && ss[k].id != sId
    ensures exists st :: st in Eliminated(ss, sId) && RewiredAs(st, ss[k], ss, sId)
  {
    var r := Rewire(ss, BypassPairs(ss, sId), sId);
    RewiredState(ss, sId, k);
    WithoutStateMembers(r, sId);
    assert r[k] in r;
    assert r[k] in Eliminated(ss, sId);
  }

  /** `eliminate` on distinct ids removes state `sId` and every edge into it. */
  lemma {:induction false} EliminateRemoves(ss: seq<BState>, sId: int)
    requires NoDup(Ids(ss)) && sId in Ids(ss)
    ensures forall st :: st in Eliminated(ss, sId) ==> st.id != sId && forall e :: e in st.transitions ==> e.dest != sId
  {
    var ps := BypassPairs(ss, sId);
    var r := Rewire(ss, ps, sId);
    BypassPairsAvoid(ss, sId);
    WithoutStateMembers(r, sId);
    forall st | st in Eliminated(ss, sId)
      ensures forall e :: e in st.transitions ==> e.dest != sId
    {
      var k :| 0 <= k < |r| && r[k] == st;
      RewireAt(ss, ps, sId, k);
      SourceIff(ss, sId, k);
      FlatForMembers(ps, ss[k].id);
      OthersMembers(ss[k].transitions, sId);
    }
  }
}
