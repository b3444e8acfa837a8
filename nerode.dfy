/**
 * Minimisation after Nerode: a table of distinguishable state pairs, grown from the
 * pairs that differ in finality until no pass adds one; the classes of mutually
 * indistinguishable states are the maximal cliques (Bron–Kerbosch) of the graph whose
 * edges are the pairs missing from the table; each class becomes one state of the
 * minimised machine.
 */
module Nerode {
  import opened Util
  import opened Fsm

  // ---------------------------------------------------------------------------
  // The table of distinguishable pairs

  /** A pair of ids stored as (smaller, larger). */
  type DistTable = set<(int, int)>

  function Ordered(s: int, t: int): (p: (int, int))
    ensures p.0 <= p.1
    ensures (p.0 == s && p.1 == t) || (p.0 == t && p.1 == s)
  {
    if s < t then (s, t) else (t, s)
  }

  /** `find_state_pair`: the order of the two ids does not matter. */
  function FindStatePair(d: DistTable, s: int, t: int): (r: bool)
    ensures r == (Ordered(t, s) in d)
  {
    Ordered(s, t) in d
  }

  /** `insert_state_pair`: adds at most the one normalised pair, after which both lookups succeed. */
  function InsertStatePair(d: DistTable, s: int, t: int): (r: DistTable)
    ensures d <= r && r - d <= {Ordered(s, t)}
    ensures FindStatePair(r, s, t) && FindStatePair(r, t, s)
  {
    d + {Ordered(s, t)}
  }

  /** Inserting a pair changes no other lookup. */
  lemma InsertKeepsOthers(d: DistTable, s: int, t: int, u: int, w: int)
    requires Ordered(u, w) != Ordered(s, t)
    ensures FindStatePair(InsertStatePair(d, s, t), u, w) == FindStatePair(d, u, w)
  {
  }

  /** Pairs of states told apart by finality alone, over `tuple_combinations` (positions i < j). */
  function FinalityPairs(m: Machine): set<(int, int)>
  {
    set i, j | 0 <= i < j < |m.states| && m.states[i].isFinal != m.states[j].isFinal
      :: Ordered(m.states[i].id, m.states[j].id)
  }

  /** The pairs of `FinalityPairs` whose positions come before (a, b) in `tuple_combinations` order. */
  function FinalityPairsBefore(m: Machine, a: int, b: int): set<(int, int)>
  {
    set i, j | 0 <= i < j < |m.states| && (i < a || (i == a && j < b))
                 && m.states[i].isFinal != m.states[j].isFinal
      :: Ordered(m.states[i].id, m.states[j].id)
  }

  /** `dist_table_len_0`. */
  method DistTableLen0(m: Machine) returns (res: DistTable)
    ensures res == FinalityPairs(m)
  {
    res := {};
    for i := 0 to |m.states|
      invariant res == FinalityPairsBefore(m, i, 0)
    {
      assert FinalityPairsBefore(m, i, 0) == FinalityPairsBefore(m, i, i + 1);
      for j := i + 1 to |m.states|
        invariant res == FinalityPairsBefore(m, i, j)
      {
        FinalityPairsStep(m, i, j);
        if m.states[i].isFinal != m.states[j].isFinal {
          res := InsertStatePair(res, m.states[i].id, m.states[j].id);
        }
      }
      FinalityPairsRowEnd(m, i);
    }
    FinalityPairsAll(m);
  }

  lemma FinalityPairsStep(m: Machine, i: nat, j: nat)
    requires i < j < |m.states|
    ensures FinalityPairsBefore(m, i, j + 1) == FinalityPairsBefore(m, i, j)
              + (if m.states[i].isFinal != m.states[j].isFinal then {Ordered(m.states[i].id, m.states[j].id)} else {})
  {
  }

  lemma FinalityPairsRowEnd(m: Machine, i: nat)
    ensures FinalityPairsBefore(m, i + 1, 0) == FinalityPairsBefore(m, i, |m.states|)
  {
  }

  lemma FinalityPairsAll(m: Machine)
    ensures FinalityPairs(m) == FinalityPairsBefore(m, |m.states|, 0)
  {
  }

  /** Two positions hold states with different ids. */
  predicate DistinctIds(m: Machine)
  {
    forall i, j :: 0 <= i < j < |m.states| ==> m.states[i].id != m.states[j].id
  }

  /**
   * With distinct ids the initial table holds the pair of two states exactly when
   * exactly one of them is final.
   */
  lemma FinalityPairsSpec(m: Machine, i: nat, j: nat)
    requires DistinctIds(m) && i < |m.states| && j < |m.states| && i != j
    ensures FindStatePair(FinalityPairs(m), m.states[i].id, m.states[j].id)
            <==> m.states[i].isFinal != m.states[j].isFinal
  {
    var si, sj := m.states[i], m.states[j];
    if FindStatePair(FinalityPairs(m), si.id, sj.id) {
      var a, b :| (0 <= a < b < |m.states| && m.states[a].isFinal != m.states[b].isFinal
                   && Ordered(m.states[a].id, m.states[b].id) == Ordered(si.id, sj.id));
      assert {a, b} == {i, j} by {
        assert m.states[a].id == si.id || m.states[a].id == sj.id;
        assert m.states[b].id == si.id || m.states[b].id == sj.id;
        if a != i && a != j { assert false; }
        if b != i && b != j { assert false; }
      }
    }
  }

  /** The first transition of `b` labelled like `x` leads with it to a distinguishable pair, or there is none. */
  predicate SplitsOn(d: DistTable, x: Transition, b: seq<Transition>)
  {
    match FindTransition(b, x.character)
    case None => true
    case Some(y) => FindStatePair(d, x.dest, y.dest)
  }

  predicate AnySplits(d: DistTable, a: seq<Transition>, b: seq<Transition>)
  {
    exists k :: 0 <= k < |a| && SplitsOn(d, a[k], b)
  }

  /** The test of `dist_table_update`, in both directions. */
  predicate Distinguishable(d: DistTable, s: State, t: State)
  {
    AnySplits(d, s.transitions, t.transitions) || AnySplits(d, t.transitions, s.transitions)
  }

  /** A larger table tells apart at least the same pairs. */
  lemma DistinguishableGrows(d: DistTable, e: DistTable, s: State, t: State)
    requires d <= e && Distinguishable(d, s, t)
    ensures Distinguishable(e, s, t)
  {
    if AnySplits(d, s.transitions, t.transitions) {
      var k :| 0 <= k < |s.transitions| && SplitsOn(d, s.transitions[k], t.transitions);
      assert SplitsOn(e, s.transitions[k], t.transitions);
    } else {
      var k :| 0 <= k < |t.transitions| && SplitsOn(d, t.transitions[k], s.transitions);
      assert SplitsOn(e, t.transitions[k], s.transitions);
    }
  }

  /** (i, j) comes before (a, b) in `tuple_combinations` order. */
  predicate Before(i: int, j: int, a: int, b: int)
  {
    i < a || (i == a && j < b)
  }

  /** Every pair before (a, b) that the table `d0` tells apart is in `d`. */
  ghost predicate CoveredBefore(m: Machine, d0: DistTable, d: DistTable, a: int, b: int)
  {
    forall i, j :: (0 <= i < j < |m.states| && Before(i, j, a, b)
                    && Distinguishable(d0, m.states[i], m.states[j]))
                   ==> FindStatePair(d, m.states[i].id, m.states[j].id)
  }

  /** Every pair `d` adds to `d0` is that of two states `d` tells apart. */
  ghost predicate AddedDistinguishable(m: Machine, d0: DistTable, d: DistTable)
  {
    forall p :: p in d - d0 ==>
      exists i, j :: (0 <= i < j < |m.states| && p == Ordered(m.states[i].id, m.states[j].id)
                      && Distinguishable(d, m.states[i], m.states[j]))
  }

  /**
   * What a pass of `dist_table_update` has done once it reaches (a, b): the
   * table only grew, by one pair per count; every pair before (a, b) that the table
   * on entry told apart is now in the table; every added pair is that of
   * two states distinguishable through the current table.
   */
  ghost predicate UpdateInv(m: Machine, d0: DistTable, d: DistTable, count: nat, a: int, b: int)
  {
    d0 <= d && count == |d| - |d0| && CoveredBefore(m, d0, d, a, b) && AddedDistinguishable(m, d0, d)
  }

  lemma CoveredSkip(m: Machine, d0: DistTable, d: DistTable, a: nat, b: nat)
    requires a < b < |m.states| && d0 <= d && CoveredBefore(m, d0, d, a, b)
    requires FindStatePair(d, m.states[a].id, m.states[b].id) || !Distinguishable(d, m.states[a], m.states[b])
    ensures CoveredBefore(m, d0, d, a, b + 1)
  {
    forall i, j | (0 <= i < j < |m.states| && Before(i, j, a, b + 1)
                   && Distinguishable(d0, m.states[i], m.states[j]))
      ensures FindStatePair(d, m.states[i].id, m.states[j].id)
    {
      if i == a && j == b { DistinguishableGrows(d0, d, m.states[a], m.states[b]); }
    }
  }

  lemma CoveredAdd(m: Machine, d0: DistTable, d: DistTable, a: nat, b: nat)
    requires a < b < |m.states| && CoveredBefore(m, d0, d, a, b)
    ensures CoveredBefore(m, d0, InsertStatePair(d, m.states[a].id, m.states[b].id), a, b + 1)
  {
  }

  lemma AddedStep(m: Machine, d0: DistTable, d: DistTable, a: nat, b: nat)
    requires a < b < |m.states| && AddedDistinguishable(m, d0, d)
    requires Distinguishable(d, m.states[a], m.states[b])
    ensures AddedDistinguishable(m, d0, InsertStatePair(d, m.states[a].id, m.states[b].id))
  {
    var s, t := m.states[a], m.states[b];
    var d' := InsertStatePair(d, s.id, t.id);
    forall p | p in d' - d0
      ensures exists i, j :: (0 <= i < j < |m.states| && p == Ordered(m.states[i].id, m.states[j].id)
                              && Distinguishable(d', m.states[i], m.states[j]))
    {
      if p == Ordered(s.id, t.id) {
        DistinguishableGrows(d, d', s, t);
      } else {
        assert p in d - d0;
        var i, j :| (0 <= i < j < |m.states| && p == Ordered(m.states[i].id, m.states[j].id)
                     && Distinguishable(d, m.states[i], m.states[j]));
        DistinguishableGrows(d, d', m.states[i], m.states[j]);
      }
    }
  }

  lemma CoveredRowStart(m: Machine, d0: DistTable, d: DistTable, a: nat)
    requires CoveredBefore(m, d0, d, a, 0)
    ensures CoveredBefore(m, d0, d, a, a + 1)
  {
  }

  lemma CoveredRowEnd(m: Machine, d0: DistTable, d: DistTable, a: nat)
    requires CoveredBefore(m, d0, d, a, |m.states|)
    ensures CoveredBefore(m, d0, d, a + 1, 0)
  {
  }

  /** One step of the pass at positions (a, b). */
  lemma UpdateStep(m: Machine, d0: DistTable, d: DistTable, count: nat, a: nat, b: nat)
    requires a < b < |m.states| && UpdateInv(m, d0, d, count, a, b)
    ensures var s, t := m.states[a], m.states[b];
            if FindStatePair(d, s.id, t.id) || !Distinguishable(d, s, t)
            then UpdateInv(m, d0, d, count, a, b + 1)
            else UpdateInv(m, d0, InsertStatePair(d, s.id, t.id), count + 1, a, b + 1)
  {
    var s, t := m.states[a], m.states[b];
    if FindStatePair(d, s.id, t.id) || !Distinguishable(d, s, t) {
      CoveredSkip(m, d0, d, a, b);
    } else {
      var d' := InsertStatePair(d, s.id, t.id);
      assert d' == d + {Ordered(s.id, t.id)};
      assert |d'| == |d| + 1;
      CoveredAdd(m, d0, d, a, b);
      AddedStep(m, d0, d, a, b);
    }
  }

  /**
   * `dist_table_update`: one pass over all pairs i < j, skipping pairs already in
   * the table and adding each pair the current table tells apart. The count is
   * the number of pairs added; every pair the entry table told apart is in the result,
   * and every added pair is distinguishable through the result.
   */
  method DistTableUpdate(m: Machine, d0: DistTable) returns (d: DistTable, count: nat)
    ensures d0 <= d && count == |d| - |d0|
    ensures forall i, j :: (0 <= i < j < |m.states| && Distinguishable(d0, m.states[i], m.states[j]))
                           ==> FindStatePair(d, m.states[i].id, m.states[j].id)
    ensures forall p :: p in d - d0 ==>
              exists i, j :: (0 <= i < j < |m.states| && p == Ordered(m.states[i].id, m.states[j].id)
                              && Distinguishable(d, m.states[i], m.states[j]))
  {
    d, count := d0, 0;
    for a := 0 to |m.states|
      invariant UpdateInv(m, d0, d, count, a, 0)
    {
      d, count := UpdateRow(m, d0, d, count, a);
    }
    UpdateDone(m, d0, d, count);
  }

  /** The inner loop of `dist_table_update`: the pairs (a, b) for every b after a. */
  method UpdateRow(m: Machine, d0: DistTable, d1: DistTable, count1: nat, a: nat) returns (d: DistTable, count: nat)
    requires a < |m.states| && UpdateInv(m, d0, d1, count1, a, 0)
    ensures UpdateInv(m, d0, d, count, a + 1, 0)
  {
    d, count := d1, count1;
    CoveredRowStart(m, d0, d, a);
    for b := a + 1 to |m.states|
      invariant UpdateInv(m, d0, d, count, a, b)
    {
      UpdateStep(m, d0, d, count, a, b);
      var s, t := m.states[a], m.states[b];
      if !FindStatePair(d, s.id, t.id) && Distinguishable(d, s, t) {
        d := InsertStatePair(d, s.id, t.id);
        count := count + 1;
      }
    }
    CoveredRowEnd(m, d0, d, a);
  }

  lemma UpdateDone(m: Machine, d0: DistTable, d: DistTable, count: nat)
    requires UpdateInv(m, d0, d, count, |m.states|, 0)
    ensures d0 <= d && count == |d| - |d0|
    ensures forall i, j :: (0 <= i < j < |m.states| && Distinguishable(d0, m.states[i], m.states[j]))
                           ==> FindStatePair(d, m.states[i].id, m.states[j].id)
    ensures forall p :: p in d - d0 ==>
              exists i, j :: (0 <= i < j < |m.states| && p == Ordered(m.states[i].id, m.states[j].id)
                              && Distinguishable(d, m.states[i], m.states[j]))
  {
  }

  // ---------------------------------------------------------------------------
  // Maximal cliques

  predicate Adjacent(edges: set<(int, int)>, u: int, w: int)
  {
    (u, w) in edges || (w, u) in edges
  }

  /** The neighbours of `v`, whichever end of an edge it sits on. */
  function Neighbours(edges: set<(int, int)>, v: int): (r: set<int>)
    ensures forall u :: u in r <==> Adjacent(edges, v, u)
  {
    var r := set e | e in edges && (e.0 == v || e.1 == v) :: if e.0 == v then e.1 else e.0;
    assert forall u :: Adjacent(edges, v, u) ==> u in r by {
      forall u | Adjacent(edges, v, u) ensures u in r {
        if (v, u) in edges { assert (v, u).1 == u; } else { assert (u, v).0 == u; }
      }
    }
    r
  }

  predicate NoSelfLoops(edges: set<(int, int)>)
  {
    forall e :: e in edges ==> e.0 != e.1
  }

  predicate Clique(edges: set<(int, int)>, r: set<int>)
  {
    forall u, w :: u in r && w in r && u != w ==> Adjacent(edges, u, w)
  }

  /** The vertices adjacent to every member of `r`. */
  ghost function CommonNeighbours(vertices: set<int>, edges: set<(int, int)>, r: set<int>): set<int>
  {
    set u | u in vertices && forall w :: w in r ==> Adjacent(edges, u, w)
  }

  /** A clique of the graph that no further vertex extends. */
  ghost predicate MaximalClique(vertices: set<int>, edges: set<(int, int)>, r: set<int>)
  {
    && r <= vertices
    && Clique(edges, r)
    && forall u :: u in vertices && u !in r ==> exists w :: w in r && !Adjacent(edges, u, w)
  }

  /** A clique without common neighbours is maximal. */
  lemma NoCommonNeighbourMaximal(vertices: set<int>, edges: set<(int, int)>, r: set<int>)
    requires r <= vertices && Clique(edges, r) && CommonNeighbours(vertices, edges, r) == {}
    ensures MaximalClique(vertices, edges, r)
  {
    forall u | u in vertices && u !in r ensures exists w :: w in r && !Adjacent(edges, u, w) {
      assert u !in CommonNeighbours(vertices, edges, r);
    }
  }

  /** Adding `v` to R keeps of the common neighbours those adjacent to `v`. */
  lemma CommonNeighboursAdd(vertices: set<int>, edges: set<(int, int)>, r: set<int>, v: int)
    ensures CommonNeighbours(vertices, edges, r + {v}) == CommonNeighbours(vertices, edges, r) * Neighbours(edges, v)
  {
  }

  /**
   * `bron_kerbosch`: with R a clique and P ∪ X its common neighbours, it appends to
   * `res` — never changing the entries already there — only maximal cliques.
   * The set P is walked in an arbitrary order, as a `HashSet` is.
   */
  method BronKerbosch(res: seq<set<int>>, ghost vertices: set<int>, edges: set<(int, int)>,
                      r: set<int>, p0: set<int>, x0: set<int>) returns (out: seq<set<int>>)
    requires NoSelfLoops(edges)
    requires r <= vertices && Clique(edges, r)
    requires p0 + x0 == CommonNeighbours(vertices, edges, r)
    ensures |out| >= |res| && out[..|res|] == res
    ensures forall k :: |res| <= k < |out| ==> MaximalClique(vertices, edges, out[k])
    decreases |p0|
  {
    out := res;
    if p0 == {} && x0 == {} {
      NoCommonNeighbourMaximal(vertices, edges, r);
      out := out + [r];
    }
    var p, x := p0, x0;
    while p != {}
      invariant p <= p0
      invariant p + x == CommonNeighbours(vertices, edges, r)
      invariant |out| >= |res| && out[..|res|] == res
      invariant forall k :: |res| <= k < |out| ==> MaximalClique(vertices, edges, out[k])
      decreases |p|
    {
      IntSetEmptyOrInhabited(p);
      var v :| v in p;
      var vNeigh := Neighbours(edges, v);
      BranchReady(vertices, edges, r, p, x, p0, v);
      var before := out;
      out := BronKerbosch(out, vertices, edges, r + {v}, p * vNeigh, x * vNeigh);
      MaximalAppended(vertices, edges, res, before, out);
      p := p - {v};
      x := x + {v};
    }
  }

  /** Branching on `v` of P meets the recursive call's requirements on a smaller P. */
  lemma BranchReady(vertices: set<int>, edges: set<(int, int)>, r: set<int>, p: set<int>, x: set<int>,
                    p0: set<int>, v: int)
    requires NoSelfLoops(edges) && r <= vertices && Clique(edges, r)
    requires v in p && p <= p0 && p + x == CommonNeighbours(vertices, edges, r)
    ensures r + {v} <= vertices && Clique(edges, r + {v})
    ensures p * Neighbours(edges, v) + x * Neighbours(edges, v) == CommonNeighbours(vertices, edges, r + {v})
    ensures |p * Neighbours(edges, v)| < |p0|
  {
    var vNeigh := Neighbours(edges, v);
    assert v !in vNeigh;
    SubsetCard(p * vNeigh, p - {v});
    SubsetCard(p, p0);
    CommonNeighboursAdd(vertices, edges, r, v);
  }

  /** Entries appended after entries appended to `res` keep `res` as prefix and all are maximal. */
  lemma MaximalAppended(vertices: set<int>, edges: set<(int, int)>, res: seq<set<int>>,
                        before: seq<set<int>>, out: seq<set<int>>)
    requires |before| >= |res| && before[..|res|] == res
    requires forall k :: |res| <= k < |before| ==> MaximalClique(vertices, edges, before[k])
    requires |out| >= |before| && out[..|before|] == before
    requires forall k :: |before| <= k < |out| ==> MaximalClique(vertices, edges, out[k])
    ensures |out| >= |res| && out[..|res|] == res
    ensures forall k :: |res| <= k < |out| ==> MaximalClique(vertices, edges, out[k])
  {
    forall k | |res| <= k < |out| ensures MaximalClique(vertices, edges, out[k]) {
      if k < |before| {
        assert out[k] == before[k];
      }
    }
    assert out[..|res|] == before[..|res|];
  }

  /** The vertex set of `cliques`: every state id. */
  function Vertices(m: Machine): set<int>
  {
    set i | 0 <= i < |m.states| :: m.states[i].id
  }

  /** The edges of `cliques`: the pairs i < j of states the table does not tell apart. */
  function GraphEdges(m: Machine, dist: DistTable): set<(int, int)>
  {
    set i, j | 0 <= i < j < |m.states| && !FindStatePair(dist, m.states[i].id, m.states[j].id)
      :: (m.states[i].id, m.states[j].id)
  }

  /** Two ids are adjacent exactly when two different states carry them and the table lacks their pair. */
  lemma GraphEdgesSpec(m: Machine, dist: DistTable, u: int, w: int)
    ensures Adjacent(GraphEdges(m, dist), u, w) <==>
            (exists i, j :: (0 <= i < |m.states| && 0 <= j < |m.states| && i != j
                             && m.states[i].id == u && m.states[j].id == w))
            && !FindStatePair(dist, u, w)
  {
    var e := GraphEdges(m, dist);
    if (u, w) in e {
      var i, j :| (0 <= i < j < |m.states| && !FindStatePair(dist, m.states[i].id, m.states[j].id)
                   && (m.states[i].id, m.states[j].id) == (u, w));
    } else if (w, u) in e {
      var i, j :| (0 <= i < j < |m.states| && !FindStatePair(dist, m.states[i].id, m.states[j].id)
                   && (m.states[i].id, m.states[j].id) == (w, u));
      assert m.states[j].id == u && m.states[i].id == w;
    }
    if (exists i, j :: (0 <= i < |m.states| && 0 <= j < |m.states| && i != j
                        && m.states[i].id == u && m.states[j].id == w))
       && !FindStatePair(dist, u, w) {
      var i, j :| (0 <= i < |m.states| && 0 <= j < |m.states| && i != j
                   && m.states[i].id == u && m.states[j].id == w);
      if i < j {
        assert (m.states[i].id, m.states[j].id) in e;
      } else {
        assert (m.states[j].id, m.states[i].id) in e;
      }
    }
  }

  /** With distinct ids the graph has no loops; otherwise `bron_kerbosch` need not terminate. */
  lemma DistinctIdsNoSelfLoops(m: Machine, dist: DistTable)
    requires DistinctIds(m)
    ensures NoSelfLoops(GraphEdges(m, dist))
  {
    forall e | e in GraphEdges(m, dist) ensures e.0 != e.1 {
      var i, j :| (0 <= i < j < |m.states| && !FindStatePair(dist, m.states[i].id, m.states[j].id)
                   && e == (m.states[i].id, m.states[j].id));
    }
  }

  /** `cliques`: every reported set is a maximal clique of the graph of indistinguishable pairs. */
  method Cliques(m: Machine, dist: DistTable) returns (res: seq<set<int>>)
    requires NoSelfLoops(GraphEdges(m, dist))
    ensures forall k :: 0 <= k < |res| ==> MaximalClique(Vertices(m), GraphEdges(m, dist), res[k])
  {
    var vertices := Vertices(m);
    var edges := GraphEdges(m, dist);
    assert CommonNeighbours(vertices, edges, {}) == vertices;
    res := BronKerbosch([], vertices, edges, {}, vertices, {});
  }

  // ---------------------------------------------------------------------------
  // The minimised machine

  datatype MinimizedState = MinimizedState(id: int, originalIds: seq<int>, transitions: seq<Transition>,
                                           isInitial: bool, isFinal: bool)

  datatype MinimizedMachine = MinimizedMachine(name: char, states: seq<MinimizedState>)

  predicate AllNonEmpty(ss: seq<set<int>>)
  {
    forall k :: 0 <= k < |ss| ==> ss[k] != {}
  }

  predicate SortedByMin(ss: seq<set<int>>)
    requires AllNonEmpty(ss)
  {
    forall k, l :: 0 <= k < l < |ss| ==> MinInt(ss[k]) <= MinInt(ss[l])
  }

  /** Puts `s` after every set whose least member is not larger than its own. */
  function InsertByMin(ss: seq<set<int>>, s: set<int>): (r: seq<set<int>>)
    requires AllNonEmpty(ss) && s != {}
    ensures forall t :: t in r <==> t in ss || t == s
    ensures multiset(r) == multiset(ss) + multiset{s}
    ensures AllNonEmpty(r)
  {
    if ss == [] then [s]
    else if MinInt(s) < MinInt(ss[0]) then [s] + ss
    else
      assert ss == [ss[0]] + ss[1..];
      [ss[0]] + InsertByMin(ss[1..], s)
  }

  lemma {:induction false} InsertByMinSorted(ss: seq<set<int>>, s: set<int>)
    requires AllNonEmpty(ss) && s != {} && SortedByMin(ss)
    ensures SortedByMin(InsertByMin(ss, s))
  {
    var r := InsertByMin(ss, s);
    if ss == [] {
    } else if MinInt(s) < MinInt(ss[0]) {
      forall k, l | 0 <= k < l < |r| ensures MinInt(r[k]) <= MinInt(r[l]) {
        assert r[l] == ss[l - 1];
        if k > 0 { assert r[k] == ss[k - 1]; } else if l > 1 { assert MinInt(ss[0]) <= MinInt(ss[l - 1]); }
      }
    } else {
      var tail := ss[1..];
      assert SortedByMin(tail) by {
        forall k, l | 0 <= k < l < |tail| ensures MinInt(tail[k]) <= MinInt(tail[l]) {
          assert tail[k] == ss[k + 1] && tail[l] == ss[l + 1];
        }
      }
      InsertByMinSorted(tail, s);
      var rest := InsertByMin(tail, s);
      assert r == [ss[0]] + rest;
      forall k, l | 0 <= k < l < |r| ensures MinInt(r[k]) <= MinInt(r[l]) {
        assert r[l] == rest[l - 1];
        if k > 0 {
          assert r[k] == rest[k - 1];
        } else if rest[l - 1] != s {
          assert rest[l - 1] in rest;
          var q :| 0 <= q < |tail| && tail[q] == rest[l - 1];
          assert ss[q + 1] == rest[l - 1];
        }
      }
    }
  }

  /** `sorted_by_key(min)`: a stable sort of the sets by their least member. */
  function SortByMin(ss: seq<set<int>>): (r: seq<set<int>>)
    requires AllNonEmpty(ss)
    ensures forall t :: t in r <==> t in ss
    ensures multiset(r) == multiset(ss)
    ensures AllNonEmpty(r) && SortedByMin(r)
  {
    if ss == [] then []
    else
      var init := ss[..|ss| - 1];
      assert ss == init + [ss[|ss| - 1]];
      InsertByMinSorted(SortByMin(init), ss[|ss| - 1]);
      InsertByMin(SortByMin(init), ss[|ss| - 1])
  }

  /** The ids that occur in some set. */
  function Members(ss: seq<set<int>>): (r: set<int>)
    ensures forall j :: j in r <==> exists s :: s in ss && j in s
  {
    set s, j | s in ss && j in s :: j
  }

  /** The map of last occurrence: the fold of `collect` over the entries set by set. */
  function LastIndex(ss: seq<set<int>>, j: int): (r: int)
    requires j in Members(ss)
    ensures 0 <= r < |ss| && j in ss[r] && forall k :: r < k < |ss| ==> j !in ss[k]
  {
    if j in ss[|ss| - 1] then |ss| - 1
    else
      var init := ss[..|ss| - 1];
      assert ss == init + [ss[|ss| - 1]];
      assert j in Members(init);
      LastIndex(init, j)
  }

  /**
   * `old_to_new`: every id in some set maps to the position of a set holding it —
   * the last such set, since later entries of the collected map overwrite earlier ones.
   */
  function OldToNew(ss: seq<set<int>>): (r: map<int, int>)
    ensures r.Keys == Members(ss)
    ensures forall j :: j in r ==> 0 <= r[j] < |ss| && j in ss[r[j]]
                                   && forall k :: r[j] < k < |ss| ==> j !in ss[k]
  {
    map j | j in Members(ss) :: LastIndex(ss, j)
  }

  /** With pairwise disjoint sets an id maps to position k exactly when set k holds it. */
  lemma OldToNewDisjoint(ss: seq<set<int>>, j: int, k: nat)
    requires forall a, b, x :: 0 <= a < b < |ss| && x in ss[a] ==> x !in ss[b]
    requires k < |ss|
    ensures (j in OldToNew(ss) && OldToNew(ss)[j] == k) <==> j in ss[k]
  {
    var r := OldToNew(ss);
    if j in ss[k] {
      assert j in Members(ss);
    }
  }

  /** The fold of `is_initial` over the members of one set. */
  function AnyInitial(m: Machine, ids: seq<int>): (r: bool)
    requires forall j :: j in ids ==> HasState(m, j)
    ensures r <==> exists j :: j in ids && LookupState(m, j).isInitial
  {
    if ids == [] then false
    else AnyInitial(m, ids[1..]) || LookupState(m, ids[0]).isInitial
  }

  /** The transitions of a member, each destination renamed to its new id. */
  function Remap(ts: seq<Transition>, otn: map<int, int>): (r: seq<Transition>)
    requires forall t :: t in ts ==> t.dest in otn
    ensures |r| == |ts|
    ensures forall i :: 0 <= i < |ts| ==> r[i].character == ts[i].character && r[i].dest == otn[ts[i].dest]
  {
    seq(|ts|, i requires 0 <= i < |ts| => Transition(ts[i].character, otn[ts[i].dest]))
  }

  /** The member whose finality and transitions the minimised state takes (the least one here). */
  function Representative(s: set<int>): (j: int)
    requires s != {}
    ensures j in s
  {
    MinInt(s)
  }

  /**
   * What `from_machine_and_equiv_sets` needs not to panic, whichever member it
   * takes as representative: the sets are non-empty, their members are states of
   * `m`, and the transitions of those states lead to members.
   */
  predicate EquivSetsOk(m: Machine, sets: seq<set<int>>)
  {
    && AllNonEmpty(sets)
    && (forall s, j :: s in sets && j in s ==> HasState(m, j))
    && (forall i, t :: (0 <= i < |m.states| && m.states[i].id in Members(sets) && t in m.states[i].transitions)
                       ==> t.dest in Members(sets))
  }

  /** Sorting keeps the members of the family and the requirements on it. */
  lemma SortedSetsOk(m: Machine, sets: seq<set<int>>)
    requires EquivSetsOk(m, sets)
    ensures Members(SortByMin(sets)) == Members(sets)
    ensures EquivSetsOk(m, SortByMin(sets))
  {
    assert Members(SortByMin(sets)) == Members(sets);
  }

  /** The state of class `k`: its sorted ids, a representative's renamed transitions and finality. */
  function NewState(m: Machine, ss: seq<set<int>>, otn: map<int, int>, k: nat): (s: MinimizedState)
    requires EquivSetsOk(m, ss) && k < |ss| && otn.Keys == Members(ss)
  {
    assert ss[k] in ss;
    var ids := SortedInts(ss[k]);
    var j := Representative(ss[k]);
    var rep := LookupState(m, j);
    assert j in Members(ss);
    MinimizedState(k, ids, Remap(rep.transitions, otn), AnyInitial(m, ids), rep.isFinal)
  }

  /**
   * A new state carries its position as id and the ascending ids of its class; it is
   * initial iff a member is; its finality and transitions, destinations renamed, come
   * from one member.
   */
  lemma NewStateSpec(m: Machine, ss: seq<set<int>>, otn: map<int, int>, k: nat)
    requires EquivSetsOk(m, ss) && k < |ss| && otn.Keys == Members(ss)
    ensures var s := NewState(m, ss, otn, k);
            && s.id == k
            && StrictlyIncreasingInts(s.originalIds) && Elems(s.originalIds) == ss[k]
            && (s.isInitial <==> exists j :: j in ss[k] && LookupState(m, j).isInitial)
            && exists j :: (j in ss[k] && s.isFinal == LookupState(m, j).isFinal
                            && (forall t :: t in LookupState(m, j).transitions ==> t.dest in otn)
                            && s.transitions == Remap(LookupState(m, j).transitions, otn))
  {
    assert ss[k] in ss;
    var j := Representative(ss[k]);
    assert j in Members(ss);
    assert forall t :: t in LookupState(m, j).transitions ==> t.dest in otn;
  }

  /** The id sets of the minimised states, in their order. */
  function Classes(r: MinimizedMachine): seq<set<int>>
  {
    seq(|r.states|, k requires 0 <= k < |r.states| => Elems(r.states[k].originalIds))
  }

  /**
   * `from_machine_and_equiv_sets`: one state per set, numbered 0, 1, … in the order
   * of the sets' least members; each state is built by `NewState`.
   */
  function FromMachineAndEquivSets(m: Machine, sets: seq<set<int>>): (r: MinimizedMachine)
    requires EquivSetsOk(m, sets)
    ensures r.name == m.name && |r.states| == |sets|
    ensures forall k :: 0 <= k < |r.states| ==> r.states[k] == NewState(m, SortByMin(sets), OldToNew(SortByMin(sets)), k)
  {
    var ss := SortByMin(sets);
    SortedSetsOk(m, sets);
    MinimizedMachine(m.name, seq(|ss|, k requires 0 <= k < |ss| => NewState(m, ss, OldToNew(ss), k)))
  }

  /**
   * The classes of the minimised machine are the given sets, each used once, with
   * new ids in ascending order of least member; a new state is initial iff a member
   * is, and takes finality and renamed transitions from one member.
   */
  lemma MinimizedSpec(m: Machine, sets: seq<set<int>>)
    requires EquivSetsOk(m, sets)
    ensures var r := FromMachineAndEquivSets(m, sets);
            && multiset(Classes(r)) == multiset(sets)
            && (forall k :: 0 <= k < |r.states| ==> r.states[k].id == k && StrictlyIncreasingInts(r.states[k].originalIds))
            && (forall k, l :: 0 <= k < l < |r.states| ==> r.states[k].originalIds[0] <= r.states[l].originalIds[0])
            && (forall k :: 0 <= k < |r.states| ==>
                  (r.states[k].isInitial <==> exists j :: j in Classes(r)[k] && LookupState(m, j).isInitial))
  {
    var r := FromMachineAndEquivSets(m, sets);
    var ss := SortByMin(sets);
    SortedSetsOk(m, sets);
    forall k | 0 <= k < |r.states| ensures Classes(r)[k] == ss[k] && r.states[k].id == k
      && StrictlyIncreasingInts(r.states[k].originalIds)
      && (r.states[k].isInitial <==> exists j :: j in Classes(r)[k] && LookupState(m, j).isInitial) {
      NewStateSpec(m, ss, OldToNew(ss), k);
    }
    assert Classes(r) == ss;
    forall k, l | 0 <= k < l < |r.states| ensures r.states[k].originalIds[0] <= r.states[l].originalIds[0] {
      assert ss[k] in ss && ss[l] in ss;
      LeastIsFirst(r.states[k].originalIds, ss[k]);
      LeastIsFirst(r.states[l].originalIds, ss[l]);
    }
  }

  /** The first element of an ascending list of a set's members is its least member. */
  lemma LeastIsFirst(ids: seq<int>, s: set<int>)
    requires StrictlyIncreasingInts(ids) && Elems(ids) == s && s != {}
    ensures |ids| > 0 && ids[0] == MinInt(s)
  {
    assert MinInt(s) in Elems(ids);
    assert ids[0] in s;
  }

  /** Every old id in some set is renamed to a new state that lists it among its original ids. */
  lemma RenamedIntoItsClass(m: Machine, sets: seq<set<int>>, j: int)
    requires EquivSetsOk(m, sets) && j in Members(sets)
    ensures var r := FromMachineAndEquivSets(m, sets); var otn := OldToNew(SortByMin(sets));
            j in otn && 0 <= otn[j] < |r.states| && r.states[otn[j]].id == otn[j]
            && j in Elems(r.states[otn[j]].originalIds)
  {
    SortedSetsOk(m, sets);
    NewStateSpec(m, SortByMin(sets), OldToNew(SortByMin(sets)), OldToNew(SortByMin(sets))[j]);
  }
}
