/**
 * The decisions behind the Graphviz picture of a pilot state: candidates are
 * grouped by machine state, one row per group with its lookaheads; rows are split
 * into the base part (state != 0) and the closure part (state 0); and an edge is
 * drawn double when its transition has multiplicity above one.
 *
 * The library routines `sort_by_key`, `sort` and `dedup` are modelled by a stable
 * insertion sort and a removal of consecutive repeats.
 */
module ElrDot {
  import opened Wrappers
  import opened Util
  import opened Mnet
  import opened ElrPilot

  datatype MergedCandidate = MergedCandidate(machine: char, state: int, lookaheads: seq<char>, isFinal: bool)

  /** The sort key: the axiom machine `S` is ranked as `@`, which sorts before every letter. */
  function MergeKey(p: (char, int)): (char, int)
  {
    (if p.0 == 'S' then '@' else p.0, p.1)
  }

  predicate KeyLe(a: (char, int), b: (char, int))
  {
    var ka := MergeKey(a);
    var kb := MergeKey(b);
    ka.0 < kb.0 || (ka.0 == kb.0 && ka.1 <= kb.1)
  }

  predicate KeyLt(a: (char, int), b: (char, int))
  {
    KeyLe(a, b) && !KeyLe(b, a)
  }

  predicate SortedByKey(s: seq<(char, int)>)
  {
    forall i, j :: 0 <= i < j < |s| ==> KeyLe(s[i], s[j])
  }

  /** Puts `x` after every element whose key is not larger than its own. */
  function InsertByKey(s: seq<(char, int)>, x: (char, int)): (r: seq<(char, int)>)
    ensures forall y :: y in r <==> y in s || y == x
    ensures multiset(r) == multiset(s) + multiset{x}
  {
    if s == [] then [x]
    else if KeyLt(x, s[0]) then [x] + s
    else
      assert s == [s[0]] + s[1..];
      [s[0]] + InsertByKey(s[1..], x)
  }

  /** A head no larger than every element of a sorted tail keeps the list sorted. */
  lemma ConsSortedByKey(h: (char, int), t: seq<(char, int)>)
    requires SortedByKey(t) && forall y :: y in t ==> KeyLe(h, y)
    ensures SortedByKey([h] + t)
  {
    forall i, j | 0 <= i < j < |t| + 1 ensures KeyLe(([h] + t)[i], ([h] + t)[j]) {
      assert ([h] + t)[j] == t[j - 1];
      if i == 0 { assert t[j - 1] in t; } else { assert ([h] + t)[i] == t[i - 1]; }
    }
  }

  lemma {:induction false} InsertByKeySorted(s: seq<(char, int)>, x: (char, int))
    requires SortedByKey(s)
    ensures SortedByKey(InsertByKey(s, x))
  {
    if s == [] {
    } else if KeyLt(x, s[0]) {
      forall y | y in s ensures KeyLe(x, y) {
        var j :| 0 <= j < |s| && s[j] == y;
        if j > 0 { assert KeyLe(s[0], s[j]); }
      }
      ConsSortedByKey(x, s);
    } else {
      assert SortedByKey(s[1..]) by {
        forall i, j | 0 <= i < j < |s| - 1 ensures KeyLe(s[1..][i], s[1..][j]) {
          assert s[1..][i] == s[i + 1] && s[1..][j] == s[j + 1];
        }
      }
      InsertByKeySorted(s[1..], x);
      forall y | y in InsertByKey(s[1..], x) ensures KeyLe(s[0], y) {
        if y != x {
          var j :| 0 <= j < |s| - 1 && s[1..][j] == y;
          assert s[j + 1] == y;
        }
      }
      ConsSortedByKey(s[0], InsertByKey(s[1..], x));
    }
  }

  /** `sort_by_key` on `MergeKey`: a stable sort. */
  function SortByKey(s: seq<(char, int)>): (r: seq<(char, int)>)
    ensures multiset(r) == multiset(s)
    ensures SortedByKey(r)
  {
    if s == [] then []
    else
      assert s == s[..|s| - 1] + [s[|s| - 1]];
      InsertByKeySorted(SortByKey(s[..|s| - 1]), s[|s| - 1]);
      InsertByKey(SortByKey(s[..|s| - 1]), s[|s| - 1])
  }

  /** `dedup`: drops every element equal to its predecessor. */
  function Dedup(s: seq<(char, int)>): (r: seq<(char, int)>)
    ensures forall x :: x in r <==> x in s
    ensures forall i :: 0 <= i < |r| - 1 ==> r[i] != r[i + 1]
    ensures |s| > 0 ==> |r| > 0 && r[0] == s[0]
    ensures SortedByKey(s) ==> SortedByKey(r)
  {
    if |s| <= 1 then s
    else
      var rest := Dedup(s[1..]);
      if s[0] == s[1] then
        assert forall x :: x in s <==> x in s[1..] by {
          forall x | x in s ensures x in s[1..] {
            if x == s[0] { assert s[1..][0] == x; }
          }
        }
        rest
      else
        [s[0]] + rest
  }

  /** Characters in non-decreasing order. */
  predicate SortedCharSeq(s: seq<char>)
  {
    forall i, j :: 0 <= i < j < |s| ==> s[i] <= s[j]
  }

  function InsertChar(s: seq<char>, x: char): (r: seq<char>)
    ensures forall y :: y in r <==> y in s || y == x
    ensures multiset(r) == multiset(s) + multiset{x}
  {
    if s == [] then [x]
    else if x < s[0] then [x] + s
    else
      assert s == [s[0]] + s[1..];
      [s[0]] + InsertChar(s[1..], x)
  }

  lemma ConsSortedChars(h: char, t: seq<char>)
    requires SortedCharSeq(t) && forall y :: y in t ==> h <= y
    ensures SortedCharSeq([h] + t)
  {
    forall i, j | 0 <= i < j < |t| + 1 ensures ([h] + t)[i] <= ([h] + t)[j] {
      assert ([h] + t)[j] == t[j - 1];
      if i == 0 { assert t[j - 1] in t; } else { assert ([h] + t)[i] == t[i - 1]; }
    }
  }

  lemma {:induction false} InsertCharSorted(s: seq<char>, x: char)
    requires SortedCharSeq(s)
    ensures SortedCharSeq(InsertChar(s, x))
  {
    if s == [] {
    } else if x < s[0] {
      forall y | y in s ensures x <= y {
        var j :| 0 <= j < |s| && s[j] == y;
        if j > 0 { assert s[0] <= s[j]; }
      }
      ConsSortedChars(x, s);
    } else {
      assert SortedCharSeq(s[1..]) by {
        forall i, j | 0 <= i < j < |s| - 1 ensures s[1..][i] <= s[1..][j] {
          assert s[1..][i] == s[i + 1] && s[1..][j] == s[j + 1];
        }
      }
      InsertCharSorted(s[1..], x);
      forall y | y in InsertChar(s[1..], x) ensures s[0] <= y {
        if y != x {
          var j :| 0 <= j < |s| - 1 && s[1..][j] == y;
          assert s[j + 1] == y;
        }
      }
      ConsSortedChars(s[0], InsertChar(s[1..], x));
    }
  }

  /** `Vec<char>::sort`. */
  function SortChars(s: seq<char>): (r: seq<char>)
    ensures multiset(r) == multiset(s)
    ensures SortedCharSeq(r)
  {
    if s == [] then []
    else
      assert s == s[..|s| - 1] + [s[|s| - 1]];
      InsertCharSorted(SortChars(s[..|s| - 1]), s[|s| - 1]);
      InsertChar(SortChars(s[..|s| - 1]), s[|s| - 1])
  }

  /** The right tack `⊣` stands for the end marker in the picture. */
  const EndMarkerGlyph: char := '\U{22A3}'

  /** The end marker never shows in the picture; every other lookahead shows as itself. */
  function DisplayLookahead(c: Candidate): (g: char)
    ensures g != EndMarker
    ensures c.lookahead != EndMarker ==> g == c.lookahead
  {
    if c.lookahead == EndMarker then EndMarkerGlyph else c.lookahead
  }

  /** The (machine, state) pair of every candidate, in order. */
  function StatePairs(cs: seq<Candidate>): (r: seq<(char, int)>)
    ensures |r| == |cs| && forall i :: 0 <= i < |cs| ==> r[i] == (cs[i].machine, cs[i].state)
  {
    seq(|cs|, i requires 0 <= i < |cs| => (cs[i].machine, cs[i].state))
  }

  function RowKey(m: MergedCandidate): (char, int)
  {
    (m.machine, m.state)
  }

  function RowKeys(ms: seq<MergedCandidate>): (r: seq<(char, int)>)
    ensures |r| == |ms| && forall i :: 0 <= i < |ms| ==> r[i] == RowKey(ms[i])
  {
    seq(|ms|, i requires 0 <= i < |ms| => RowKey(ms[i]))
  }

  /** The candidates on machine state `p`, in order. */
  function Matching(cs: seq<Candidate>, p: (char, int)): (r: seq<Candidate>)
    ensures forall c :: c in r <==> c in cs && (c.machine, c.state) == p
    ensures p in StatePairs(cs) ==> r != [] && r[0] == cs[FirstOn(cs, p)]
  {
    if cs == [] then []
    else
      assert (cs[0].machine, cs[0].state) != p && p in StatePairs(cs) ==> p in StatePairs(cs[1..]) by {
        if (cs[0].machine, cs[0].state) != p && p in StatePairs(cs) {
          var i :| 0 <= i < |cs| && StatePairs(cs)[i] == p;
          assert StatePairs(cs[1..])[i - 1] == p;
        }
      }
      if (cs[0].machine, cs[0].state) == p then [cs[0]] + Matching(cs[1..], p)
      else Matching(cs[1..], p)
  }

  /** The position of the first candidate on machine state `p`. */
  function FirstOn(cs: seq<Candidate>, p: (char, int)): (k: nat)
    requires p in StatePairs(cs)
    ensures k < |cs| && (cs[k].machine, cs[k].state) == p
    ensures forall j :: 0 <= j < k ==> (cs[j].machine, cs[j].state) != p
  {
    if (cs[0].machine, cs[0].state) == p then 0
    else
      assert p in StatePairs(cs[1..]) by {
        var i :| 0 <= i < |cs| && StatePairs(cs)[i] == p;
        assert StatePairs(cs[1..])[i - 1] == p;
      }
      var k := FirstOn(cs[1..], p);
      assert forall j :: 1 <= j < k + 1 ==> cs[j] == cs[1..][j - 1];
      k + 1
  }

  function DisplayLookaheads(cs: seq<Candidate>): (r: seq<char>)
    ensures |r| == |cs| && forall i :: 0 <= i < |cs| ==> r[i] == DisplayLookahead(cs[i])
  {
    seq(|cs|, i requires 0 <= i < |cs| => DisplayLookahead(cs[i]))
  }

  /**
   * The row of machine state `p`, which some candidate sits on: its lookaheads are
   * those of all candidates on `p`, the end marker shown as `⊣`, sorted; its
   * finality is that of the first candidate on `p`.
   */
  function MergeOne(cs: seq<Candidate>, p: (char, int)): (m: MergedCandidate)
    requires p in StatePairs(cs)
    ensures RowKey(m) == p
    ensures multiset(m.lookaheads) == multiset(DisplayLookaheads(Matching(cs, p)))
    ensures SortedCharSeq(m.lookaheads)
    ensures m.isFinal == cs[FirstOn(cs, p)].isFinal
  {
    var raw := Matching(cs, p);
    MergedCandidate(p.0, p.1, SortChars(DisplayLookaheads(raw)), raw[0].isFinal)
  }

  /** The rows of the machine states `ps`, each on some candidate. */
  function MergeAll(cs: seq<Candidate>, ps: seq<(char, int)>): (r: seq<MergedCandidate>)
    requires forall p :: p in ps ==> p in StatePairs(cs)
    ensures |r| == |ps| && forall i :: 0 <= i < |ps| ==> r[i] == MergeOne(cs, ps[i])
  {
    if ps == [] then [] else [MergeOne(cs, ps[0])] + MergeAll(cs, ps[1..])
  }

  /** The machine states of the candidates, sorted by key, repeats next to each other removed. */
  function MergedKeys(s: PilotState): (r: seq<(char, int)>)
    ensures forall p :: p in r <==> p in StatePairs(s.candidates)
    ensures SortedByKey(r)
    ensures forall i :: 0 <= i < |r| - 1 ==> r[i] != r[i + 1]
  {
    var pairs := StatePairs(s.candidates);
    var sorted := SortByKey(pairs);
    assert forall p :: p in sorted <==> p in pairs by {
      forall p ensures p in sorted <==> p in pairs {
        assert p in sorted <==> p in multiset(sorted);
        assert p in pairs <==> p in multiset(pairs);
      }
    }
    Dedup(sorted)
  }

  /** `merged_candidates`: one row per key, in key order. */
  function MergedCandidates(s: PilotState): (r: seq<MergedCandidate>)
    ensures |r| == |MergedKeys(s)|
    ensures forall i :: 0 <= i < |r| ==> r[i] == MergeOne(s.candidates, MergedKeys(s)[i])
  {
    MergeAll(s.candidates, MergedKeys(s))
  }

  /** The rows carry the keys they were merged for, in order. */
  lemma MergedRowKeys(s: PilotState)
    ensures RowKeys(MergedCandidates(s)) == MergedKeys(s)
  {
    var ks := MergedKeys(s);
    var r := MergedCandidates(s);
    forall i | 0 <= i < |r| ensures RowKeys(r)[i] == ks[i] {
      assert r[i] == MergeOne(s.candidates, ks[i]);
    }
  }

  /** No machine is named `@`, the rank the axiom borrows. */
  predicate NoAtMachine(cs: seq<Candidate>)
  {
    forall c :: c in cs ==> c.machine != '@'
  }

  /**
   * The rows of `merged_candidates` are keyed by machine state: a key occurs iff
   * some candidate sits on that machine state, keys come in key order, and with no
   * machine named `@` no machine state has two rows.
   */
  lemma MergedCandidatesSpec(s: PilotState)
    ensures forall p :: p in RowKeys(MergedCandidates(s)) <==> exists c :: c in s.candidates && (c.machine, c.state) == p
    ensures SortedByKey(RowKeys(MergedCandidates(s)))
    ensures NoAtMachine(s.candidates) ==> NoDup(RowKeys(MergedCandidates(s)))
  {
    var cs := s.candidates;
    var ks := MergedKeys(s);
    MergedRowKeys(s);
    forall p ensures p in ks <==> exists c :: c in cs && (c.machine, c.state) == p {
      PairOfCandidate(cs, p);
    }
    if NoAtMachine(cs) {
      forall i, j | 0 <= i < j < |ks| ensures ks[i] != ks[j] {
        DistinctAfterDedup(ks, i, j, cs);
      }
    }
  }

  /** A machine state is among the pairs exactly when some candidate sits on it. */
  lemma PairOfCandidate(cs: seq<Candidate>, p: (char, int))
    ensures p in StatePairs(cs) <==> exists c :: c in cs && (c.machine, c.state) == p
  {
    if p in StatePairs(cs) {
      var i :| 0 <= i < |cs| && StatePairs(cs)[i] == p;
      assert cs[i] in cs;
    }
    if exists c :: c in cs && (c.machine, c.state) == p {
      var c :| c in cs && (c.machine, c.state) == p;
      var i :| 0 <= i < |cs| && cs[i] == c;
      assert StatePairs(cs)[i] == p;
    }
  }

  /** A sorted list without consecutive repeats of machine states no machine `@` sits on is repeat-free. */
  lemma DistinctAfterDedup(ps: seq<(char, int)>, i: nat, j: nat, cs: seq<Candidate>)
    requires SortedByKey(ps) && forall k :: 0 <= k < |ps| - 1 ==> ps[k] != ps[k + 1]
    requires forall p :: p in ps ==> p in StatePairs(cs)
    requires NoAtMachine(cs)
    requires i < j < |ps|
    ensures ps[i] != ps[j]
  {
    assert ps[i] in ps && ps[i + 1] in ps;
    var a :| 0 <= a < |cs| && StatePairs(cs)[a] == ps[i];
    var b :| 0 <= b < |cs| && StatePairs(cs)[b] == ps[i + 1];
    assert cs[a] in cs && cs[b] in cs;
    assert KeyLe(ps[i], ps[i + 1]) && KeyLe(ps[i + 1], ps[j]);
  }

  // ---------------------------------------------------------------------------
  // The split of `to_dot` and its double edges

  /** The rows drawn above the separator: machine states other than 0. */
  function BaseRows(ms: seq<MergedCandidate>): (r: seq<MergedCandidate>)
    ensures forall m :: m in r <==> m in ms && m.state != 0
  {
    if ms == [] then []
    else (if ms[0].state != 0 then [ms[0]] else []) + BaseRows(ms[1..])
  }

  /** The rows drawn below the separator: the initial states of machines. */
  function ClosureRows(ms: seq<MergedCandidate>): (r: seq<MergedCandidate>)
    ensures forall m :: m in r <==> m in ms && m.state == 0
  {
    if ms == [] then []
    else (if ms[0].state == 0 then [ms[0]] else []) + ClosureRows(ms[1..])
  }

  /** Base and closure rows together are all rows, each exactly once. */
  lemma {:induction false} RowsPartition(ms: seq<MergedCandidate>)
    ensures multiset(BaseRows(ms)) + multiset(ClosureRows(ms)) == multiset(ms)
  {
    if ms != [] {
      RowsPartition(ms[1..]);
      assert ms == [ms[0]] + ms[1..];
    }
  }

  /** The edge of each transition is drawn double exactly when its multiplicity exceeds one. */
  function DoubleEdges(ts: seq<PilotTransition>): (r: seq<bool>)
    ensures |r| == |ts| && forall i :: 0 <= i < |ts| ==> (r[i] <==> ts[i].multiplicity > 1)
  {
    seq(|ts|, i requires 0 <= i < |ts| => ts[i].multiplicity > 1)
  }

  /** A set with more than one member has two different members. */
  lemma TwoMembers(o: set<(char, int)>)
    requires |o| > 1
    ensures exists x, y :: x in o && y in o && x != y
  {
    var x :| x in o;
    assert |o - {x}| == |o| - 1;
    var y :| y in o - {x};
  }

  /** More than one origin exactly when two moving sources sit on different machine states. */
  lemma SeveralOrigins(cs: seq<Candidate>, sh: seq<Option<Candidate>>)
    requires |sh| == |cs|
    ensures |Origins(cs, sh, |cs|)| > 1 <==>
            exists a, b :: (0 <= a < |cs| && 0 <= b < |cs| && sh[a].Some? && sh[b].Some?
                            && (cs[a].machine, cs[a].state) != (cs[b].machine, cs[b].state))
  {
    var o := Origins(cs, sh, |cs|);
    if |o| > 1 {
      TwoMembers(o);
      var x, y :| x in o && y in o && x != y;
      OriginsMembers(cs, sh, |cs|, x);
      OriginsMembers(cs, sh, |cs|, y);
    }
    if exists a, b :: (0 <= a < |cs| && 0 <= b < |cs| && sh[a].Some? && sh[b].Some?
                       && (cs[a].machine, cs[a].state) != (cs[b].machine, cs[b].state)) {
      var a, b :| (0 <= a < |cs| && 0 <= b < |cs| && sh[a].Some? && sh[b].Some?
                   && (cs[a].machine, cs[a].state) != (cs[b].machine, cs[b].state));
      OriginsMembers(cs, sh, |cs|, (cs[a].machine, cs[a].state));
      OriginsMembers(cs, sh, |cs|, (cs[b].machine, cs[b].state));
      SubsetCard({(cs[a].machine, cs[a].state), (cs[b].machine, cs[b].state)}, o);
    }
  }

  /**
   * On an expanded pilot state an edge is double exactly when the candidates that
   * move along it come from at least two different machine states.
   */
  lemma DoubleEdgeIffSeveralOrigins(net: MachineNet, states: seq<PilotState>, cs: seq<Candidate>,
                                    ts: seq<PilotTransition>, i: nat)
    requires WellFormed(net) && AllValid(net, cs) && i < |ts|
    requires TransitionOk(net, states, cs, ts[i])
    ensures var sh := ShiftResults(net, cs, ts[i].character);
            DoubleEdges(ts)[i] <==>
            exists a, b :: (0 <= a < |cs| && 0 <= b < |cs| && sh[a].Some? && sh[b].Some?
                            && (cs[a].machine, cs[a].state) != (cs[b].machine, cs[b].state))
  {
    SeveralOrigins(cs, ShiftResults(net, cs, ts[i].character));
  }
}
