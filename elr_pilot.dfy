/**
 * The ELR(1) pilot of a machine net. A pilot state is a list of candidates
 * <machine state, lookahead>; its base candidates are those whose machine state is
 * not an initial state 0. `closure` completes a state with the initial states of the
 * machines its candidates call, `shift` moves every candidate over one label, and
 * `create_pilot` explores the states reachable from the axiom breadth first, merging
 * states with equal base sets.
 */
module ElrPilot {
  import opened Wrappers
  import opened Util
  import opened Fsm
  import opened Mnet
  import opened MnetValidation

  datatype Candidate = Candidate(machine: char, state: int, lookahead: char, isFinal: bool)

  datatype PilotTransition = PilotTransition(character: char, destId: int, multiplicity: int,
                                             candidateMap: seq<(nat, nat)>)

  datatype PilotState = PilotState(id: int, candidates: seq<Candidate>, transitions: seq<PilotTransition>)

  /** The lookahead of the axiom's initial candidate. */
  const EndMarker: char := '$'

  /** A base candidate sits on a non-initial machine state. */
  predicate IsBase(c: Candidate)
  {
    c.state != 0
  }

  /** `base_set`: the base candidates of a state, as a set. */
  function BaseSet(s: PilotState): (r: set<Candidate>)
    ensures forall c :: c in r <==> c in s.candidates && IsBase(c)
  {
    set c | c in s.candidates && IsBase(c)
  }

  /** `is_equivalent`: two states are merged when their base sets are equal. */
  predicate IsEquivalent(a: PilotState, b: PilotState)
  {
    BaseSet(a) == BaseSet(b)
  }

  // ---------------------------------------------------------------------------
  // The finite universe of candidates

  /** Every lookahead a candidate can carry: a terminal of the net or the end marker. */
  function Lookaheads(net: MachineNet): set<char>
  {
    TerminalLabels(net) + {EndMarker}
  }

  /**
   * A candidate the construction can produce: its machine state exists, its
   * lookahead is a terminal or the end marker, and its finality is that of its state.
   */
  predicate ValidCandidate(net: MachineNet, c: Candidate)
  {
    && HasNetState(net, c.machine, c.state)
    && c.lookahead in Lookaheads(net)
    && c.isFinal == NetLookupState(net, c.machine, c.state).isFinal
  }

  predicate AllValid(net: MachineNet, cs: seq<Candidate>)
  {
    forall c :: c in cs ==> ValidCandidate(net, c)
  }

  ghost function Universe(net: MachineNet): set<Candidate>
  {
    set p, l, f: bool | p in Pairs(net) && l in Lookaheads(net) :: Candidate(p.0, p.1, l, f)
  }

  lemma ValidInUniverse(net: MachineNet, c: Candidate)
    requires ValidCandidate(net, c)
    ensures c in Universe(net)
  {
    NetStateFacts(net, c.machine, c.state);
    assert c == Candidate((c.machine, c.state).0, (c.machine, c.state).1, c.lookahead, c.isFinal);
  }

  // ---------------------------------------------------------------------------
  // Closure

  /**
   * The candidates that transition `t` (uppercase, leaving the state of `c`) adds to
   * the closure: state 0 of the called machine, with every follower of the
   * transition's destination as lookahead.
   */
  ghost function SuccessorsVia(net: MachineNet, c: Candidate, t: Transition): (r: set<Candidate>)
    ensures forall d :: d in r ==> d.machine == t.character && d.state == 0
  {
    if WellFormed(net) && HasNetState(net, c.machine, c.state) && IsNonterminal(t)
       && t in NetLookupState(net, c.machine, c.state).transitions then
      assert StateWellFormed(net, c.machine, c.state);
      assert TransitionWellFormed(net, c.machine, t);
      var final := NetLookupState(net, t.character, 0).isFinal;
      set ch | ch in FollowersFrom(net, c.machine, t.dest, {}, {c.lookahead}).0 :: Candidate(t.character, 0, ch, final)
    else {}
  }

  /** All candidates the closure derives from `c` in one step (none for an invalid net). */
  ghost function Successors(net: MachineNet, c: Candidate): set<Candidate>
  {
    if HasNetState(net, c.machine, c.state) then
      var ts := NetLookupState(net, c.machine, c.state).transitions;
      set t, d | t in ts && IsNonterminal(t) && d in SuccessorsVia(net, c, t) :: d
    else {}
  }

  /** Every element of `s` occurs in `cs`. */
  predicate Covers(cs: seq<Candidate>, s: set<Candidate>)
  {
    forall d :: d in s ==> d in cs
  }

  lemma SuccessorsValid(net: MachineNet, c: Candidate)
    requires WellFormed(net) && ValidCandidate(net, c)
    ensures forall d :: d in Successors(net, c) ==> ValidCandidate(net, d) && d.state == 0
  {
    forall d | d in Successors(net, c)
      ensures ValidCandidate(net, d) && d.state == 0
    {
      var ts := NetLookupState(net, c.machine, c.state).transitions;
      var t :| t in ts && IsNonterminal(t) && d in SuccessorsVia(net, c, t);
      assert StateWellFormed(net, c.machine, c.state);
      assert TransitionWellFormed(net, c.machine, t);
      FollowersFromBounds(net, c.machine, t.dest, {}, {c.lookahead});
    }
  }

  /** A list extends another when the other is its prefix. */
  predicate Extends(r: seq<Candidate>, cs: seq<Candidate>)
  {
    |cs| <= |r| && forall k :: 0 <= k < |cs| ==> r[k] == cs[k]
  }

  /** Every candidate from position `n` on differs from all candidates before it. */
  predicate NewFrom(cs: seq<Candidate>, n: nat)
  {
    forall i, k :: 0 <= i < k < |cs| && n <= k ==> cs[i] != cs[k]
  }

  /** The candidate at position `k` is derived from an earlier one. */
  ghost predicate DerivedAt(net: MachineNet, cs: seq<Candidate>, k: nat)
  {
    k < |cs| && exists j :: 0 <= j < k && cs[k] in Successors(net, cs[j])
  }

  /** Every candidate from position `n` on sits on a state 0 and is derived. */
  ghost predicate AppendedDerived(net: MachineNet, cs: seq<Candidate>, n: nat)
  {
    forall k :: n <= k < |cs| ==> cs[k].state == 0 && DerivedAt(net, cs, k)
  }

  /** The successors of the first `i` candidates are all in the list. */
  ghost predicate CoveredUpTo(net: MachineNet, cs: seq<Candidate>, i: nat)
  {
    forall j :: 0 <= j < i && j < |cs| ==> Covers(cs, Successors(net, cs[j]))
  }

  /**
   * What `closure` makes of `state`: the old candidates keep their places, every
   * appended candidate is new when appended, sits on a state 0 and is derived from an
   * earlier candidate, and the result is closed under the derivation.
   */
  ghost predicate ClosureOf(net: MachineNet, state: PilotState, r: PilotState)
  {
    var n := |state.candidates|;
    && r.id == state.id && r.transitions == state.transitions
    && Extends(r.candidates, state.candidates)
    && AllValid(net, r.candidates)
    && NewFrom(r.candidates, n)
    && AppendedDerived(net, r.candidates, n)
    && forall c :: c in r.candidates ==> Covers(r.candidates, Successors(net, c))
  }

  /** Appending only new candidates keeps a duplicate-free list duplicate-free. */
  lemma AppendedNewKeepsNoDup(cs: seq<Candidate>, n: nat)
    requires n <= |cs| && NoDup(cs[..n]) && NewFrom(cs, n)
    ensures NoDup(cs)
  {
    forall i, j | 0 <= i < j < |cs| ensures cs[i] != cs[j] {
      if j < n {
        assert cs[..n][i] == cs[i] && cs[..n][j] == cs[j];
      }
    }
  }

  /** The closure leaves the base set unchanged, and a duplicate-free state stays so. */
  lemma ClosureKeepsBase(net: MachineNet, state: PilotState, r: PilotState)
    requires ClosureOf(net, state, r)
    ensures BaseSet(r) == BaseSet(state)
    ensures NoDup(state.candidates) ==> NoDup(r.candidates)
  {
    var n := |state.candidates|;
    forall c | c in BaseSet(r) ensures c in BaseSet(state) {
      var k :| 0 <= k < |r.candidates| && r.candidates[k] == c;
      assert k < n;
    }
    forall c | c in BaseSet(state) ensures c in BaseSet(r) {
      var k :| 0 <= k < n && state.candidates[k] == c;
      assert r.candidates[k] == c;
    }
    if NoDup(state.candidates) {
      assert r.candidates[..n] == state.candidates;
      AppendedNewKeepsNoDup(r.candidates, n);
    }
  }

  /** Appends the candidates of `news` that are not yet in `cs` (the innermost loop of `closure`). */
  method AppendNew(cs: seq<Candidate>, news: set<Candidate>) returns (r: seq<Candidate>)
    ensures Extends(r, cs) && NewFrom(r, |cs|)
    ensures forall k :: |cs| <= k < |r| ==> r[k] in news
    ensures Covers(r, news)
  {
    r := cs;
    var remaining := news;
    while remaining != {}
      invariant Extends(r, cs) && NewFrom(r, |cs|)
      invariant forall k :: |cs| <= k < |r| ==> r[k] in news
      invariant remaining <= news
      invariant forall x :: x in news && x !in remaining ==> x in r
      decreases |remaining|
    {
      var d :| d in remaining;
      remaining := remaining - {d};
      if d !in r {
        ghost var before := r;
        r := r + [d];
        assert forall x :: x in before ==> x in r;
      }
    }
  }

  /** A covered set stays covered when the list grows. */
  lemma CoversExtends(r: seq<Candidate>, cs: seq<Candidate>, s: set<Candidate>)
    requires Extends(r, cs) && Covers(cs, s)
    ensures Covers(r, s)
  {
    forall d | d in s ensures d in r {
      var k :| 0 <= k < |cs| && cs[k] == d;
      assert r[k] == d;
    }
  }

  /** One step of `AddSuccessors`' loop keeps its invariant. */
  lemma AddStep(net: MachineNet, cs: seq<Candidate>, c: Candidate, before: seq<Candidate>,
                after: seq<Candidate>, news: set<Candidate>)
    requires Extends(before, cs) && NewFrom(before, |cs|) && AllValid(net, before)
    requires forall k :: |cs| <= k < |before| ==> before[k] in Successors(net, c)
    requires news <= Successors(net, c)
    requires forall d :: d in news ==> ValidCandidate(net, d)
    requires Extends(after, before) && NewFrom(after, |before|)
    requires forall k :: |before| <= k < |after| ==> after[k] in news
    ensures Extends(after, cs) && NewFrom(after, |cs|) && AllValid(net, after)
    ensures forall k :: |cs| <= k < |after| ==> after[k] in Successors(net, c)
  {
    forall x | x in after ensures ValidCandidate(net, x) {
      var k :| 0 <= k < |after| && after[k] == x;
      if k < |before| {
        assert before[k] == x;
      }
    }
  }

  /**
   * The candidates one uppercase transition `t` of the state of `c` adds: state 0 of
   * the called machine with each follower of `t`'s destination as lookahead.
   */
  method TransitionSuccessors(net: MachineNet, c: Candidate, t: Transition) returns (news: set<Candidate>)
    requires WellFormed(net) && HasNetState(net, c.machine, c.state) && IsNonterminal(t)
    requires t in NetLookupState(net, c.machine, c.state).transitions
    ensures news == SuccessorsVia(net, c, t)
  {
    assert StateWellFormed(net, c.machine, c.state);
    assert TransitionWellFormed(net, c.machine, t);
    var ini := Followers(net, c.machine, t.dest, {c.lookahead});
    var destState := NetLookupState(net, t.character, 0);
    news := set ch | ch in ini :: Candidate(t.character, 0, ch, destState.isFinal);
  }

  /** The successors of `c` are the union of those via each uppercase transition. */
  lemma SuccessorsFromVia(net: MachineNet, c: Candidate, got: set<Candidate>)
    requires HasNetState(net, c.machine, c.state)
    requires forall t :: t in NetLookupState(net, c.machine, c.state).transitions && IsNonterminal(t) ==>
               SuccessorsVia(net, c, t) <= got
    ensures Successors(net, c) <= got
  {
    var ts := NetLookupState(net, c.machine, c.state).transitions;
    forall d | d in Successors(net, c) ensures d in got {
      var t :| t in ts && IsNonterminal(t) && d in SuccessorsVia(net, c, t);
    }
  }

  /** The body of the `closure` loop for one candidate: adds everything it derives. */
  method AddSuccessors(net: MachineNet, cs: seq<Candidate>, idx: nat) returns (r: seq<Candidate>)
    requires WellFormed(net) && idx < |cs| && AllValid(net, cs)
    ensures Extends(r, cs) && NewFrom(r, |cs|) && AllValid(net, r)
    ensures forall k :: |cs| <= k < |r| ==> r[k] in Successors(net, cs[idx])
    ensures Covers(r, Successors(net, cs[idx]))
  {
    var c := cs[idx];
    assert c in cs;
    SuccessorsValid(net, c);
    var ts := NetLookupState(net, c.machine, c.state).transitions;
    r := cs;
    var rest := ts;
    ghost var got: set<Candidate> := {};
    ghost var done: seq<Transition> := [];
    while rest != []
      invariant ts == done + rest
      invariant Extends(r, cs) && NewFrom(r, |cs|) && AllValid(net, r)
      invariant forall k :: |cs| <= k < |r| ==> r[k] in Successors(net, c)
      invariant Covers(r, got)
      invariant forall t :: t in done && IsNonterminal(t) ==> SuccessorsVia(net, c, t) <= got
      decreases |rest|
    {
      var t := rest[0];
      assert done + rest == (done + [t]) + rest[1..];
      rest := rest[1..];
      done := done + [t];
      if IsNonterminal(t) {
        var news := TransitionSuccessors(net, c, t);
        ghost var before := r;
        r := AppendNew(r, news);
        AddStep(net, cs, c, before, r, news);
        CoversExtends(r, before, got);
        got := got + news;
      }
    }
    SuccessorsFromVia(net, c, got);
  }

  /** The invariant of the `closure` loop after `i` candidates. */
  ghost predicate ClosureInv(net: MachineNet, state: PilotState, cands: seq<Candidate>, i: nat)
  {
    var n := |state.candidates|;
    && i <= |cands|
    && Extends(cands, state.candidates)
    && AllValid(net, cands)
    && NewFrom(cands, n)
    && AppendedDerived(net, cands, n)
    && CoveredUpTo(net, cands, i)
  }

  /** Appended candidates keep being derived as the list grows by derived candidates. */
  lemma DerivedStep(net: MachineNet, n: nat, before: seq<Candidate>, after: seq<Candidate>, i: nat)
    requires AppendedDerived(net, before, n) && i < |before|
    requires Extends(after, before)
    requires forall k :: |before| <= k < |after| ==> after[k] in Successors(net, before[i])
    requires forall d :: d in Successors(net, before[i]) ==> d.state == 0
    ensures AppendedDerived(net, after, n)
  {
    forall k | n <= k < |after| ensures after[k].state == 0 && DerivedAt(net, after, k) {
      if k < |before| {
        assert DerivedAt(net, before, k);
        var j :| 0 <= j < k && before[k] in Successors(net, before[j]);
        assert after[j] == before[j];
      } else {
        assert after[i] == before[i];
      }
    }
  }

  /** Covering the successors of candidate `i` extends the covered prefix to `i + 1`. */
  lemma CoveredStep(net: MachineNet, before: seq<Candidate>, after: seq<Candidate>, i: nat)
    requires CoveredUpTo(net, before, i) && i < |before|
    requires Extends(after, before)
    requires Covers(after, Successors(net, before[i]))
    ensures CoveredUpTo(net, after, i + 1)
  {
    forall j | 0 <= j < i + 1 && j < |after| ensures Covers(after, Successors(net, after[j])) {
      assert after[j] == before[j];
      if j < i {
        CoversExtends(after, before, Successors(net, before[j]));
      }
    }
  }

  /** Appending the successors of candidate `i` advances the `closure` invariant to `i + 1`. */
  lemma ClosureStep(net: MachineNet, state: PilotState, before: seq<Candidate>, after: seq<Candidate>, i: nat)
    requires ClosureInv(net, state, before, i) && i < |before|
    requires Extends(after, before) && NewFrom(after, |before|) && AllValid(net, after)
    requires forall k :: |before| <= k < |after| ==> after[k] in Successors(net, before[i])
    requires Covers(after, Successors(net, before[i]))
    requires forall d :: d in Successors(net, before[i]) ==> d.state == 0
    ensures ClosureInv(net, state, after, i + 1)
  {
    DerivedStep(net, |state.candidates|, before, after, i);
    CoveredStep(net, before, after, i);
  }

  /**
   * `closure`: walks the candidate list by index, the list growing behind the index,
   * adding for every candidate the initial states of the machines it calls.
   */
  method Closure(net: MachineNet, state: PilotState) returns (r: PilotState)
    requires WellFormed(net) && AllValid(net, state.candidates)
    ensures ClosureOf(net, state, r)
  {
    var n := |state.candidates|;
    var cands := state.candidates;
    var candidateId := 0;
    while candidateId < |cands|
      invariant ClosureInv(net, state, cands, candidateId)
      decreases n + |Universe(net)| - candidateId
    {
      ghost var before := cands;
      assert before[candidateId] in before;
      SuccessorsValid(net, before[candidateId]);
      cands := AddSuccessors(net, cands, candidateId);
      ClosureStep(net, state, before, cands, candidateId);
      ClosureMeasure(net, cands, n);
      candidateId := candidateId + 1;
    }
    r := state.(candidates := cands);
    forall c | c in r.candidates ensures Covers(r.candidates, Successors(net, c)) {
      var j :| 0 <= j < |cands| && cands[j] == c;
    }
  }

  /** The appended part of a growing candidate list is bounded by the universe. */
  lemma ClosureMeasure(net: MachineNet, cs: seq<Candidate>, n: nat)
    requires n <= |cs| && AllValid(net, cs) && NewFrom(cs, n)
    ensures |cs| <= n + |Universe(net)|
  {
    var tail := cs[n..];
    assert NoDup(tail) by {
      forall i, j | 0 <= i < j < |tail| ensures tail[i] != tail[j] {
        assert tail[i] == cs[n + i] && tail[j] == cs[n + j];
      }
    }
    forall c | c in tail ensures c in Universe(net) {
      ValidInUniverse(net, c);
    }
    NoDupBound(tail, Universe(net));
  }

  // ---------------------------------------------------------------------------
  // Outgoing labels

  /** The transitions leaving the machine state of a candidate. */
  function Outgoing(net: MachineNet, c: Candidate): seq<Transition>
    requires HasNetState(net, c.machine, c.state)
  {
    NetLookupState(net, c.machine, c.state).transitions
  }

  predicate AllExist(net: MachineNet, cs: seq<Candidate>)
  {
    forall k :: 0 <= k < |cs| ==> HasNetState(net, cs[k].machine, cs[k].state)
  }

  lemma ValidExist(net: MachineNet, cs: seq<Candidate>)
    requires AllValid(net, cs)
    ensures AllExist(net, cs)
  {
    forall k | 0 <= k < |cs| ensures HasNetState(net, cs[k].machine, cs[k].state) {
      assert cs[k] in cs;
    }
  }

  /** `ch` labels a transition leaving the state of one of the first `n` candidates. */
  predicate LabelledBefore(net: MachineNet, cs: seq<Candidate>, n: nat, ch: char)
    requires AllExist(net, cs) && n <= |cs|
  {
    exists k, t :: 0 <= k < n && t in Outgoing(net, cs[k]) && t.character == ch
  }

  /** The labels before `i + 1` are those before `i` and those leaving candidate `i`. */
  lemma LabelledStep(net: MachineNet, cs: seq<Candidate>, i: nat, res: set<char>)
    requires AllExist(net, cs) && i < |cs|
    requires forall ch :: ch in res <==> (LabelledBefore(net, cs, i, ch) ||
                                          exists l :: 0 <= l < |Outgoing(net, cs[i])| && Outgoing(net, cs[i])[l].character == ch)
    ensures forall ch :: ch in res <==> LabelledBefore(net, cs, i + 1, ch)
  {
    var ts := Outgoing(net, cs[i]);
    forall ch | LabelledBefore(net, cs, i + 1, ch) ensures ch in res {
      var k, t :| 0 <= k < i + 1 && t in Outgoing(net, cs[k]) && t.character == ch;
      if k == i {
        var l :| 0 <= l < |ts| && ts[l] == t;
      }
    }
    forall ch | ch in res ensures LabelledBefore(net, cs, i + 1, ch) {
      if !LabelledBefore(net, cs, i, ch) {
        var l :| 0 <= l < |ts| && ts[l].character == ch;
        assert ts[l] in Outgoing(net, cs[i]);
      }
    }
  }

  /**
   * `collect_transitions`: the labels of all transitions leaving the states of the
   * candidates, uppercase ones included, sorted and without repetition.
   */
  method CollectTransitions(net: MachineNet, state: PilotState) returns (r: seq<char>)
    requires AllExist(net, state.candidates)
    ensures StrictlyIncreasingChars(r)
    ensures forall ch :: ch in r <==> LabelledBefore(net, state.candidates, |state.candidates|, ch)
  {
    var cs := state.candidates;
    var res: set<char> := {};
    for i := 0 to |cs|
      invariant forall ch :: ch in res <==> LabelledBefore(net, cs, i, ch)
    {
      var ts := Outgoing(net, cs[i]);
      for j := 0 to |ts|
        invariant forall ch :: ch in res <==> LabelledBefore(net, cs, i, ch) || exists l :: 0 <= l < j && ts[l].character == ch
      {
        res := res + {ts[j].character};
      }
      LabelledStep(net, cs, i, res);
    }
    r := SortedChars(res);
  }

  // ---------------------------------------------------------------------------
  // Shift


  /**
   * `d` is `c` moved over the first transition of its state labelled `next`: same
   * machine and lookahead, the transition's destination as state and that
   * state's finality.
   */
  predicate ShiftsTo(net: MachineNet, c: Candidate, next: char, d: Candidate)
    requires HasNetState(net, c.machine, c.state)
  {
    var ts := Outgoing(net, c);
    exists k :: (0 <= k < |ts| && ts[k].character == next
                 && (forall j :: 0 <= j < k ==> ts[j].character != next)
                 && HasNetState(net, c.machine, ts[k].dest)
                 && d == Candidate(c.machine, ts[k].dest, c.lookahead,
                                   NetLookupState(net, c.machine, ts[k].dest).isFinal))
  }

  /** `shift_candidate`: None exactly when the state has no transition on `next`. */
  function ShiftCandidate(net: MachineNet, c: Candidate, next: char): (r: Option<Candidate>)
    requires WellFormed(net) && HasNetState(net, c.machine, c.state)
    ensures r.None? <==> forall k :: 0 <= k < |Outgoing(net, c)| ==> Outgoing(net, c)[k].character != next
    ensures r.Some? ==> ShiftsTo(net, c, next, r.value)
    ensures r.Some? && c.lookahead in Lookaheads(net) ==> ValidCandidate(net, r.value)
  {
    var ts := Outgoing(net, c);
    match FindTransition(ts, next)
    case None => None
    case Some(t) =>
      assert StateWellFormed(net, c.machine, c.state);
      assert TransitionWellFormed(net, c.machine, t);
      Some(Candidate(c.machine, t.dest, c.lookahead, NetLookupState(net, c.machine, t.dest).isFinal))
  }

  /** In a net where no transition enters a state 0, every shifted candidate is a base one. */
  lemma ShiftedIsBase(net: MachineNet, c: Candidate, next: char)
    requires WellFormed(net) && NotReentrant(net) && HasNetState(net, c.machine, c.state)
    requires ShiftCandidate(net, c, next).Some?
    ensures IsBase(ShiftCandidate(net, c, next).value)
  {
    var m := LookupMachine(net, c.machine);
    var st := NetLookupState(net, c.machine, c.state);
    assert MachineNotReentrant(m);
    assert StateNotReentrant(st);
    var t := FindTransition(st.transitions, next).value;
    assert t in st.transitions;
  }

  /** Position of the first occurrence of `x` (`Iterator::position`). */
  function IndexOf(s: seq<Candidate>, x: Candidate): (r: Option<nat>)
    ensures r.None? <==> x !in s
    ensures r.Some? ==> r.value < |s| && s[r.value] == x
  {
    if s == [] then None
    else if s[0] == x then Some(0)
    else
      match IndexOf(s[1..], x)
      case None => None
      case Some(k) => Some(k + 1)
  }

  /** What each source candidate shifts to, position by position. */
  function ShiftResults(net: MachineNet, cs: seq<Candidate>, ch: char): (r: seq<Option<Candidate>>)
    requires WellFormed(net) && AllValid(net, cs)
    ensures |r| == |cs|
  {
    if cs == [] then []
    else
      assert cs[0] in cs;
      [ShiftCandidate(net, cs[0], ch)] + ShiftResults(net, cs[1..], ch)
  }

  /** Position `i` of `ShiftResults` is what `shift_candidate` makes of candidate `i`. */
  lemma {:induction false} ShiftResultsAt(net: MachineNet, cs: seq<Candidate>, ch: char, i: nat)
    requires WellFormed(net) && AllValid(net, cs) && i < |cs|
    ensures cs[i] in cs && ShiftResults(net, cs, ch)[i] == ShiftCandidate(net, cs[i], ch)
  {
    if i > 0 {
      ShiftResultsAt(net, cs[1..], ch, i - 1);
      assert cs[1..][i - 1] == cs[i];
    }
  }

  /** Every map entry (i, j) sends source i to destination candidate j. */
  predicate MapSound(sh: seq<Option<Candidate>>, dest: seq<Candidate>, cmap: seq<(nat, nat)>)
  {
    forall e :: e in cmap ==> e.0 < |sh| && e.1 < |dest| && sh[e.0] == Some(dest[e.1])
  }

  /** Exactly the sources below `n` that shift have a map entry. */
  predicate MapComplete(sh: seq<Option<Candidate>>, cmap: seq<(nat, nat)>, n: nat)
  {
    forall i :: 0 <= i < n && i < |sh| ==> (sh[i].Some? <==> exists e :: e in cmap && e.0 == i)
  }

  /** The source indices of a map are strictly increasing. */
  predicate SourcesIncreasing(cmap: seq<(nat, nat)>)
  {
    forall a, b :: 0 <= a < b < |cmap| ==> cmap[a].0 < cmap[b].0
  }

  predicate SeenBefore(cmap: seq<(nat, nat)>, k: nat, j: nat)
  {
    exists k' :: 0 <= k' < k && k' < |cmap| && cmap[k'].1 == j
  }

  /** Every destination index below `n` occurs in the map. */
  predicate DestsCovered(cmap: seq<(nat, nat)>, n: nat)
  {
    forall j :: 0 <= j < n ==> SeenBefore(cmap, |cmap|, j)
  }

  /** Destination candidates are numbered in order of first appearance. */
  predicate FirstSeenOrder(cmap: seq<(nat, nat)>)
  {
    forall k, j :: 0 <= k < |cmap| && 0 <= j < cmap[k].1 ==> SeenBefore(cmap, k, j)
  }

  /** The (machine, state) pairs of the sources below `n` that shift. */
  function Origins(cs: seq<Candidate>, sh: seq<Option<Candidate>>, n: nat): set<(char, int)>
    requires n <= |sh| == |cs|
  {
    if n == 0 then {}
    else Origins(cs, sh, n - 1) + (if sh[n - 1].Some? then {(cs[n - 1].machine, cs[n - 1].state)} else {})
  }

  /** The origins are the pairs of exactly the shifting sources. */
  lemma {:induction false} OriginsMembers(cs: seq<Candidate>, sh: seq<Option<Candidate>>, n: nat, p: (char, int))
    requires n <= |sh| == |cs|
    ensures p in Origins(cs, sh, n) <==> exists i :: 0 <= i < n && sh[i].Some? && p == (cs[i].machine, cs[i].state)
  {
    if n > 0 {
      OriginsMembers(cs, sh, n - 1, p);
    }
  }

  /** The invariant of the `shift` loop after `n` source candidates. */
  predicate ShiftInv(cs: seq<Candidate>, sh: seq<Option<Candidate>>, n: nat,
                     dest: seq<Candidate>, cmap: seq<(nat, nat)>, orig: set<(char, int)>)
  {
    && NoDup(dest)
    && MapSound(sh, dest, cmap)
    && MapComplete(sh, cmap, n)
    && (forall e :: e in cmap ==> e.0 < n)
    && SourcesIncreasing(cmap)
    && DestsCovered(cmap, |dest|)
    && FirstSeenOrder(cmap)
    && n <= |sh| == |cs|
    && orig == Origins(cs, sh, n)
    && |orig| <= |cmap|
  }

  /** A source that does not shift leaves everything as it is. */
  lemma ShiftSkip(cs: seq<Candidate>, sh: seq<Option<Candidate>>, n: nat,
                  dest: seq<Candidate>, cmap: seq<(nat, nat)>, orig: set<(char, int)>)
    requires n < |sh| == |cs| && sh[n].None?
    requires ShiftInv(cs, sh, n, dest, cmap, orig)
    ensures ShiftInv(cs, sh, n + 1, dest, cmap, orig)
  {
  }

  /** The map facts once entry (n, j) is recorded, `dest[j]` being what source `n` shifts to. */
  lemma ShiftRecord(cs: seq<Candidate>, sh: seq<Option<Candidate>>, n: nat,
                    dest: seq<Candidate>, cmap: seq<(nat, nat)>, orig: set<(char, int)>, j: nat)
    requires n < |sh| == |cs|
    requires MapSound(sh, dest, cmap) && MapComplete(sh, cmap, n)
    requires forall e :: e in cmap ==> e.0 < n
    requires SourcesIncreasing(cmap)
    requires orig == Origins(cs, sh, n) && |orig| <= |cmap|
    requires j < |dest| && sh[n] == Some(dest[j])
    ensures MapSound(sh, dest, cmap + [(n, j)])
    ensures MapComplete(sh, cmap + [(n, j)], n + 1)
    ensures forall e :: e in cmap + [(n, j)] ==> e.0 < n + 1
    ensures SourcesIncreasing(cmap + [(n, j)])
    ensures orig + {(cs[n].machine, cs[n].state)} == Origins(cs, sh, n + 1)
    ensures |orig + {(cs[n].machine, cs[n].state)}| <= |cmap + [(n, j)]|
  {
    var cmap' := cmap + [(n, j)];
    forall i | 0 <= i < n + 1 && i < |sh|
      ensures sh[i].Some? <==> exists e :: e in cmap' && e.0 == i
    {
      if i < n {
        assert forall e :: e in cmap' && e.0 == i ==> e in cmap;
        assert forall e :: e in cmap ==> e in cmap';
      } else {
        assert cmap'[|cmap|] == (n, j);
      }
    }
  }

  /** Seen destinations stay seen when an entry is appended. */
  lemma SeenAppend(cmap: seq<(nat, nat)>, e: (nat, nat), k: nat, j: nat)
    requires k <= |cmap| && SeenBefore(cmap, k, j)
    ensures SeenBefore(cmap + [e], k, j)
  {
    var k' :| 0 <= k' < k && k' < |cmap| && cmap[k'].1 == j;
    assert (cmap + [e])[k'].1 == j;
  }

  /** The order facts after appending entry (n, j) with `j <= d`, `d` destinations being seen. */
  lemma OrderAppend(cmap: seq<(nat, nat)>, n: nat, j: nat, d: nat)
    requires DestsCovered(cmap, d) && FirstSeenOrder(cmap) && j <= d
    ensures FirstSeenOrder(cmap + [(n, j)])
    ensures DestsCovered(cmap + [(n, j)], if j == d then d + 1 else d)
  {
    var cmap' := cmap + [(n, j)];
    forall j' | 0 <= j' < (if j == d then d + 1 else d) ensures SeenBefore(cmap', |cmap'|, j') {
      if j' < d {
        SeenAppend(cmap, (n, j), |cmap|, j');
        var k' :| 0 <= k' < |cmap| && cmap'[k'].1 == j';
      } else {
        assert cmap'[|cmap|].1 == j';
      }
    }
    forall k, j' | 0 <= k < |cmap'| && 0 <= j' < cmap'[k].1 ensures SeenBefore(cmap', k, j') {
      if k < |cmap| {
        assert cmap'[k] == cmap[k];
        SeenAppend(cmap, (n, j), k, j');
      } else {
        SeenAppend(cmap, (n, j), |cmap|, j');
      }
    }
  }

  /** A source that shifts onto a candidate already present at `j`. */
  lemma ShiftOld(cs: seq<Candidate>, sh: seq<Option<Candidate>>, n: nat,
                 dest: seq<Candidate>, cmap: seq<(nat, nat)>, orig: set<(char, int)>, j: nat)
    requires n < |sh| == |cs|
    requires ShiftInv(cs, sh, n, dest, cmap, orig)
    requires j < |dest| && sh[n] == Some(dest[j])
    ensures ShiftInv(cs, sh, n + 1, dest, cmap + [(n, j)], orig + {(cs[n].machine, cs[n].state)})
  {
    ShiftRecord(cs, sh, n, dest, cmap, orig, j);
    OrderAppend(cmap, n, j, |dest|);
  }

  /** A source that shifts onto a candidate not yet present, appended at the end. */
  lemma ShiftNew(cs: seq<Candidate>, sh: seq<Option<Candidate>>, n: nat,
                 dest: seq<Candidate>, cmap: seq<(nat, nat)>, orig: set<(char, int)>, x: Candidate)
    requires n < |sh| == |cs|
    requires ShiftInv(cs, sh, n, dest, cmap, orig)
    requires sh[n] == Some(x) && x !in dest
    ensures ShiftInv(cs, sh, n + 1, dest + [x], cmap + [(n, |dest|)], orig + {(cs[n].machine, cs[n].state)})
  {
    var dest' := dest + [x];
    MapSoundGrow(sh, dest, x, cmap);
    ShiftRecord(cs, sh, n, dest', cmap, orig, |dest|);
    OrderAppend(cmap, n, |dest|, |dest|);
    NoDupAppend(dest, x);
  }

  lemma MapSoundGrow(sh: seq<Option<Candidate>>, dest: seq<Candidate>, x: Candidate, cmap: seq<(nat, nat)>)
    requires MapSound(sh, dest, cmap)
    ensures MapSound(sh, dest + [x], cmap)
  {
    forall e | e in cmap ensures e.1 < |dest + [x]| && (dest + [x])[e.1] == dest[e.1] {
    }
  }

  /** Shifting valid candidates yields valid candidates. */
  lemma ShiftResultsValid(net: MachineNet, cs: seq<Candidate>, ch: char)
    requires WellFormed(net) && AllValid(net, cs)
    ensures forall i :: 0 <= i < |cs| && ShiftResults(net, cs, ch)[i].Some? ==>
              ValidCandidate(net, ShiftResults(net, cs, ch)[i].value)
  {
    forall i | 0 <= i < |cs| && ShiftResults(net, cs, ch)[i].Some?
      ensures ValidCandidate(net, ShiftResults(net, cs, ch)[i].value)
    {
      ShiftResultsAt(net, cs, ch, i);
    }
  }

  /** A destination list every entry of which some source shifts to holds only valid candidates. */
  lemma DestValid(net: MachineNet, sh: seq<Option<Candidate>>, dest: seq<Candidate>, cmap: seq<(nat, nat)>)
    requires forall i :: 0 <= i < |sh| && sh[i].Some? ==> ValidCandidate(net, sh[i].value)
    requires MapSound(sh, dest, cmap) && DestsCovered(cmap, |dest|)
    ensures AllValid(net, dest)
  {
    forall x | x in dest ensures ValidCandidate(net, x) {
      var j :| 0 <= j < |dest| && dest[j] == x;
      assert SeenBefore(cmap, |cmap|, j);
      var k :| 0 <= k < |cmap| && cmap[k].1 == j;
      assert cmap[k] in cmap;
    }
  }

  /** `shift_candidate` applied to source candidate `i`. */
  method ShiftAt(net: MachineNet, cs: seq<Candidate>, ch: char, i: nat) returns (r: Option<Candidate>)
    requires WellFormed(net) && AllValid(net, cs) && i < |cs|
    ensures r == ShiftResults(net, cs, ch)[i]
  {
    ShiftResultsAt(net, cs, ch, i);
    r := ShiftCandidate(net, cs[i], ch);
  }

  /**
   * The body of the `shift` loop for source `i`, whose shifted candidate is
   * `shifted`: record its pair, then map it onto an equal candidate already
   * present or onto a new one appended at the end.
   */
  method RecordShift(cs: seq<Candidate>, ghost sh: seq<Option<Candidate>>, i: nat, shifted: Option<Candidate>,
                     candidates: seq<Candidate>, candidateMap: seq<(nat, nat)>, origStates: set<(char, int)>)
    returns (candidates': seq<Candidate>, candidateMap': seq<(nat, nat)>, origStates': set<(char, int)>)
    requires i < |sh| == |cs| && shifted == sh[i]
    requires ShiftInv(cs, sh, i, candidates, candidateMap, origStates)
    ensures ShiftInv(cs, sh, i + 1, candidates', candidateMap', origStates')
  {
    candidates', candidateMap', origStates' := candidates, candidateMap, origStates;
    if shifted.Some? {
      var c := cs[i];
      var x := shifted.value;
      origStates' := origStates + {(c.machine, c.state)};
      match IndexOf(candidates, x)
      case Some(j) =>
        ShiftOld(cs, sh, i, candidates, candidateMap, origStates, j);
        candidateMap' := candidateMap + [(i, j)];
      case None =>
        ShiftNew(cs, sh, i, candidates, candidateMap, origStates, x);
        candidateMap' := candidateMap + [(i, |candidates|)];
        candidates' := candidates + [x];
    } else {
      ShiftSkip(cs, sh, i, candidates, candidateMap, origStates);
    }
  }

  /**
   * The contract of `Shift` below as one predicate. The transition is on `ch` and
   * both ids are still the placeholder -1; the state holds the distinct results of
   * shifting the sources, in order of first appearance; the map records, for every
   * source that moves and for no other, the position of its result; the
   * multiplicity counts the distinct machine states the movers come from.
   */
  predicate ShiftOutcome(net: MachineNet, state: PilotState, ch: char, trans: PilotTransition, dest: PilotState)
    requires WellFormed(net) && AllValid(net, state.candidates)
  {
    var sh := ShiftResults(net, state.candidates, ch);
    && trans.character == ch && trans.destId == -1
    && dest.id == -1 && dest.transitions == []
    && NoDup(dest.candidates) && AllValid(net, dest.candidates)
    && MapSound(sh, dest.candidates, trans.candidateMap)
    && MapComplete(sh, trans.candidateMap, |state.candidates|)
    && SourcesIncreasing(trans.candidateMap)
    && DestsCovered(trans.candidateMap, |dest.candidates|)
    && FirstSeenOrder(trans.candidateMap)
    && trans.multiplicity == |Origins(state.candidates, sh, |state.candidates|)|
    && trans.multiplicity <= |trans.candidateMap|
  }

  /**
   * `shift`: moves every candidate of `state` over `ch`; equal results are merged
   * and `candidateMap` records, for each source that moves, where its result went.
   * The ids are the placeholder -1 until `insert` decides them.
   */
  method Shift(net: MachineNet, state: PilotState, ch: char) returns (trans: PilotTransition, dest: PilotState)
    requires WellFormed(net) && AllValid(net, state.candidates)
    ensures trans.character == ch && trans.destId == -1
    ensures dest.id == -1 && dest.transitions == []
    ensures NoDup(dest.candidates) && AllValid(net, dest.candidates)
    ensures MapSound(ShiftResults(net, state.candidates, ch), dest.candidates, trans.candidateMap)
    ensures MapComplete(ShiftResults(net, state.candidates, ch), trans.candidateMap, |state.candidates|)
    ensures SourcesIncreasing(trans.candidateMap)
    ensures DestsCovered(trans.candidateMap, |dest.candidates|)
    ensures FirstSeenOrder(trans.candidateMap)
    ensures trans.multiplicity == |Origins(state.candidates, ShiftResults(net, state.candidates, ch), |state.candidates|)|
    ensures trans.multiplicity <= |trans.candidateMap|
  {
    var cs := state.candidates;
    ghost var sh := ShiftResults(net, cs, ch);
    var origStates: set<(char, int)> := {};
    var candidates: seq<Candidate> := [];
    var candidateMap: seq<(nat, nat)> := [];
    var i := 0;
    ShiftStart(cs, sh);
    while i < |cs|
      invariant i <= |cs| && ShiftInv(cs, sh, i, candidates, candidateMap, origStates)
    {
      var shifted := ShiftAt(net, cs, ch, i);
      candidates, candidateMap, origStates := RecordShift(cs, sh, i, shifted, candidates, candidateMap, origStates);
      i := i + 1;
    }
    ShiftResultsValid(net, cs, ch);
    DestValid(net, sh, candidates, candidateMap);
    ShiftDone(cs, sh, candidates, candidateMap, origStates);
    trans := PilotTransition(ch, -1, |origStates|, candidateMap);
    dest := PilotState(-1, candidates, []);
  }

  lemma ShiftStart(cs: seq<Candidate>, sh: seq<Option<Candidate>>)
    requires |sh| == |cs|
    ensures ShiftInv(cs, sh, 0, [], [], {})
  {
  }

  lemma ShiftDone(cs: seq<Candidate>, sh: seq<Option<Candidate>>,
                  dest: seq<Candidate>, cmap: seq<(nat, nat)>, orig: set<(char, int)>)
    requires ShiftInv(cs, sh, |cs|, dest, cmap, orig)
    ensures NoDup(dest) && MapSound(sh, dest, cmap) && MapComplete(sh, cmap, |cs|)
    ensures SourcesIncreasing(cmap) && DestsCovered(cmap, |dest|) && FirstSeenOrder(cmap)
    ensures |orig| == |Origins(cs, sh, |cs|)| <= |cmap|
  {
  }

  /** Everything the sources shift to, as a set. */
  function ShiftedSet(sh: seq<Option<Candidate>>): set<Candidate>
  {
    set i | 0 <= i < |sh| && sh[i].Some? :: sh[i].value
  }

  /** A sound, complete and covering map makes the destination list hold exactly the shifted candidates. */
  lemma ShiftElems(sh: seq<Option<Candidate>>, dest: seq<Candidate>, cmap: seq<(nat, nat)>)
    requires MapSound(sh, dest, cmap) && MapComplete(sh, cmap, |sh|) && DestsCovered(cmap, |dest|)
    ensures forall x :: x in dest <==> x in ShiftedSet(sh)
  {
    forall x | x in dest ensures x in ShiftedSet(sh) {
      var j :| 0 <= j < |dest| && dest[j] == x;
      assert SeenBefore(cmap, |cmap|, j);
      var k :| 0 <= k < |cmap| && cmap[k].1 == j;
      assert cmap[k] in cmap;
    }
    forall x | x in ShiftedSet(sh) ensures x in dest {
      var i :| 0 <= i < |sh| && sh[i].Some? && sh[i].value == x;
      var e :| e in cmap && e.0 == i;
    }
  }

  // ---------------------------------------------------------------------------
  // The pilot

  /** The first state whose base set equals that of `s` has id `id`. */
  predicate FoundEquivalent(states: seq<PilotState>, s: PilotState, id: int)
  {
    exists k :: (0 <= k < |states| && IsEquivalent(states[k], s) && states[k].id == id
                 && forall j :: 0 <= j < k ==> !IsEquivalent(states[j], s))
  }

  class Pilot {
    var states: seq<PilotState>

    constructor ()
      ensures states == []
    {
      states := [];
    }

    /** `lookup_state`: the first state with the given id (a missing id is a panic). */
    method LookupState(id: int) returns (s: PilotState)
      requires exists k :: 0 <= k < |states| && states[k].id == id
      ensures exists k :: (0 <= k < |states| && states[k] == s && s.id == id
                           && forall j :: 0 <= j < k ==> states[j].id != id)
    {
      var i := 0;
      while states[i].id != id
        invariant 0 <= i < |states|
        invariant forall j :: 0 <= j < i ==> states[j].id != id
        invariant exists k :: i <= k < |states| && states[k].id == id
        decreases |states| - i
      {
        i := i + 1;
      }
      s := states[i];
    }

    /** `lookup_state_mut(id).transitions = ts`: replaces the transitions of the first state with that id. */
    method SetTransitions(id: int, ts: seq<PilotTransition>)
      requires exists k :: 0 <= k < |states| && states[k].id == id
      modifies this
      ensures exists k :: (0 <= k < |old(states)| && old(states)[k].id == id
                           && (forall j :: 0 <= j < k ==> old(states)[j].id != id)
                           && states == old(states)[k := old(states)[k].(transitions := ts)])
    {
      var i := 0;
      while states[i].id != id
        invariant 0 <= i < |states|
        invariant forall j :: 0 <= j < i ==> states[j].id != id
        invariant exists k :: i <= k < |states| && states[k].id == id
        decreases |states| - i
      {
        i := i + 1;
      }
      states := states[i := states[i].(transitions := ts)];
    }

    /**
     * `insert`: returns the id of the first state whose base set equals that of
     * `incoming`, leaving the states alone; otherwise numbers it with the current
     * count, completes it by `closure` and appends it.
     */
    method Insert(net: MachineNet, incoming: PilotState) returns (id: int)
      requires WellFormed(net) && AllValid(net, incoming.candidates)
      modifies this
      ensures (exists k :: 0 <= k < |old(states)| && IsEquivalent(old(states)[k], incoming)) ==>
                states == old(states) && FoundEquivalent(states, incoming, id)
      ensures (forall k :: 0 <= k < |old(states)| ==> !IsEquivalent(old(states)[k], incoming)) ==>
                && id == |old(states)| && |states| == id + 1 && states[..id] == old(states)
                && ClosureOf(net, incoming.(id := id), states[id])
    {
      for i := 0 to |states|
        invariant forall j :: 0 <= j < i ==> !IsEquivalent(states[j], incoming)
      {
        if IsEquivalent(states[i], incoming) {
          return states[i].id;
        }
      }
      id := |states|;
      var expanded := Closure(net, incoming.(id := id));
      states := states + [expanded];
    }
  }

  // ---------------------------------------------------------------------------
  // create_pilot

  /** Every candidate's derived candidates are already in the list. */
  ghost predicate ClosedList(net: MachineNet, cs: seq<Candidate>)
  {
    forall c :: c in cs ==> Covers(cs, Successors(net, c))
  }

  /**
   * The states are numbered by position, hold duplicate-free, valid and closed
   * candidate lists, and no two of them have the same base set.
   */
  ghost predicate StatesOk(net: MachineNet, states: seq<PilotState>)
  {
    && (forall k :: 0 <= k < |states| ==> states[k].id == k)
    && (forall k :: 0 <= k < |states| ==> NoDup(states[k].candidates) && AllValid(net, states[k].candidates))
    && (forall k :: 0 <= k < |states| ==> ClosedList(net, states[k].candidates))
    && (forall a, b :: 0 <= a < b < |states| ==> BaseSet(states[a]) != BaseSet(states[b]))
  }

  /** The base candidates of a set. */
  function BaseOf(s: set<Candidate>): set<Candidate>
  {
    set c | c in s && IsBase(c)
  }

  /**
   * A transition leaving a state with candidates `cs` is the one `shift` computes
   * for its label, sent to the state that holds the base candidates of the shift:
   * its target exists and has exactly those base candidates, its multiplicity is the
   * number of distinct machine states that move, its map names exactly the sources
   * that move, and (in a net that never re-enters a state 0) every target index of
   * the map lies within the target state.
   */
  ghost predicate TransitionOk(net: MachineNet, states: seq<PilotState>, cs: seq<Candidate>, t: PilotTransition)
    requires WellFormed(net) && AllValid(net, cs)
  {
    var sh := ShiftResults(net, cs, t.character);
    && 0 <= t.destId < |states|
    && BaseSet(states[t.destId]) == BaseOf(ShiftedSet(sh))
    && t.multiplicity == |Origins(cs, sh, |cs|)|
    && (forall e :: e in t.candidateMap ==> e.0 < |cs| && sh[e.0].Some?)
    && MapComplete(sh, t.candidateMap, |cs|)
    && (NotReentrant(net) ==> forall e :: e in t.candidateMap ==> e.1 < |states[t.destId].candidates|)
  }

  predicate HasLabel(ts: seq<PilotTransition>, ch: char)
  {
    exists i :: 0 <= i < |ts| && ts[i].character == ch
  }

  /**
   * State `k` has been expanded: its transitions are sorted by label, carry exactly
   * the labels leaving its candidates' machine states, and each one is right.
   */
  ghost predicate TransOk(net: MachineNet, states: seq<PilotState>, k: int)
  {
    && WellFormed(net) && 0 <= k < |states|
    && AllValid(net, states[k].candidates) && AllExist(net, states[k].candidates)
    && var cs := states[k].candidates;
    && var ts := states[k].transitions;
    && (forall a, b :: 0 <= a < b < |ts| ==> ts[a].character < ts[b].character)
    && (forall ch :: HasLabel(ts, ch) <==> LabelledBefore(net, cs, |cs|, ch))
    && (forall i :: 0 <= i < |ts| ==> TransitionOk(net, states, cs, ts[i]))
  }

  /** The shifts of `state` for each label of `chars`, in order. */
  method ShiftAll(net: MachineNet, state: PilotState, chars: seq<char>) returns (shifts: seq<(PilotTransition, PilotState)>)
    requires WellFormed(net) && AllValid(net, state.candidates)
    ensures |shifts| == |chars|
    ensures forall i :: 0 <= i < |chars| ==> ShiftOutcome(net, state, chars[i], shifts[i].0, shifts[i].1)
  {
    shifts := [];
    for i := 0 to |chars|
      invariant |shifts| == i
      invariant forall j :: 0 <= j < i ==> ShiftOutcome(net, state, chars[j], shifts[j].0, shifts[j].1)
    {
      var trans, dest := Shift(net, state, chars[i]);
      shifts := shifts + [(trans, dest)];
    }
  }

  /** Transition `x` is the shifted transition of `sh` with a target holding its base candidates. */
  predicate Placed(states: seq<PilotState>, sh: (PilotTransition, PilotState), x: PilotTransition)
  {
    && x == sh.0.(destId := x.destId)
    && 0 <= x.destId < |states|
    && BaseSet(states[x.destId]) == BaseSet(sh.1)
  }

  predicate Targeted(xions: seq<PilotTransition>, k: int)
  {
    exists i :: 0 <= i < |xions| && xions[i].destId == k
  }

  /**
   * After inserting the targets of the first |xions| shifts: the old states are
   * untouched, the added ones have no transitions yet and each is the target of
   * one of the transitions, and each transition is placed.
   */
  ghost predicate InsertedSoFar(net: MachineNet, before: seq<PilotState>, after: seq<PilotState>,
                                shifts: seq<(PilotTransition, PilotState)>, xions: seq<PilotTransition>)
  {
    && StatesOk(net, after)
    && |before| <= |after| && after[..|before|] == before
    && (forall k :: |before| <= k < |after| ==> after[k].transitions == [])
    && (forall k :: |before| <= k < |after| ==> Targeted(xions, k))
    && |xions| <= |shifts|
    && (forall i :: 0 <= i < |xions| ==> Placed(after, shifts[i], xions[i]))
  }

  /** Appending the closure of a state whose base set is new keeps the states consistent. */
  lemma AppendKeepsStatesOk(net: MachineNet, mid: seq<PilotState>, incoming: PilotState, added: PilotState)
    requires StatesOk(net, mid) && NoDup(incoming.candidates)
    requires forall k :: 0 <= k < |mid| ==> !IsEquivalent(mid[k], incoming)
    requires ClosureOf(net, incoming.(id := |mid|), added)
    ensures StatesOk(net, mid + [added])
    ensures BaseSet(added) == BaseSet(incoming) && added.transitions == incoming.transitions
  {
    ClosureKeepsBase(net, incoming.(id := |mid|), added);
    var after := mid + [added];
    var n := |mid|;
    forall k | 0 <= k < |after|
      ensures after[k].id == k
      ensures NoDup(after[k].candidates) && AllValid(net, after[k].candidates)
      ensures ClosedList(net, after[k].candidates)
    {
      if k < n {
        assert after[k] == mid[k];
      }
    }
    forall a, b | 0 <= a < b < |after| ensures BaseSet(after[a]) != BaseSet(after[b]) {
      assert after[a] == mid[a];
      if b < n {
        assert after[b] == mid[b];
      } else {
        assert !IsEquivalent(mid[a], incoming);
      }
    }
  }

  /** An `insert` that found an equivalent state. */
  lemma InsertFound(net: MachineNet, before: seq<PilotState>, mid: seq<PilotState>,
                    shifts: seq<(PilotTransition, PilotState)>, xions: seq<PilotTransition>, id: int)
    requires InsertedSoFar(net, before, mid, shifts, xions) && |xions| < |shifts|
    requires FoundEquivalent(mid, shifts[|xions|].1, id)
    ensures InsertedSoFar(net, before, mid, shifts, xions + [shifts[|xions|].0.(destId := id)])
  {
    var xs := xions + [shifts[|xions|].0.(destId := id)];
    var k0 :| 0 <= k0 < |mid| && IsEquivalent(mid[k0], shifts[|xions|].1) && mid[k0].id == id;
    assert mid[k0].id == k0;
    assert Placed(mid, shifts[|xions|], xs[|xions|]);
    forall i | 0 <= i < |xions| ensures Placed(mid, shifts[i], xs[i]) {
      assert xs[i] == xions[i];
    }
    forall k | |before| <= k < |mid| ensures Targeted(xs, k) {
      assert Targeted(xions, k);
      var i :| 0 <= i < |xions| && xions[i].destId == k;
      assert xs[i].destId == k;
    }
  }

  /** An `insert` that appended a new state. */
  lemma InsertAdded(net: MachineNet, before: seq<PilotState>, mid: seq<PilotState>, added: PilotState,
                    shifts: seq<(PilotTransition, PilotState)>, xions: seq<PilotTransition>)
    requires InsertedSoFar(net, before, mid, shifts, xions) && |xions| < |shifts|
    requires StatesOk(net, mid + [added]) && added.transitions == []
    requires BaseSet(added) == BaseSet(shifts[|xions|].1)
    ensures InsertedSoFar(net, before, mid + [added], shifts, xions + [shifts[|xions|].0.(destId := |mid|)])
  {
    var after := mid + [added];
    var xs := xions + [shifts[|xions|].0.(destId := |mid|)];
    assert forall k :: 0 <= k < |mid| ==> after[k] == mid[k];
    assert forall i :: 0 <= i < |xions| ==> xs[i] == xions[i];
    assert after[..|before|] == before by {
      assert after[..|before|] == mid[..|before|];
    }
    forall i | 0 <= i < |xs| ensures Placed(after, shifts[i], xs[i]) {
      if i < |xions| {
        assert Placed(mid, shifts[i], xions[i]);
      }
    }
    forall k | |before| <= k < |after| ensures Targeted(xs, k) {
      if k < |mid| {
        assert Targeted(xions, k);
        var i :| 0 <= i < |xions| && xions[i].destId == k;
        assert xs[i].destId == k;
      } else {
        assert xs[|xions|].destId == k;
      }
    }
  }

  /** One call of `insert` extends what has been inserted by one placed transition. */
  lemma InsertStep(net: MachineNet, before: seq<PilotState>, mid: seq<PilotState>, after: seq<PilotState>,
                   shifts: seq<(PilotTransition, PilotState)>, xions: seq<PilotTransition>, id: int)
    requires InsertedSoFar(net, before, mid, shifts, xions) && |xions| < |shifts|
    requires shifts[|xions|].1.transitions == [] && NoDup(shifts[|xions|].1.candidates)
    requires (exists k :: 0 <= k < |mid| && IsEquivalent(mid[k], shifts[|xions|].1)) ==>
               after == mid && FoundEquivalent(after, shifts[|xions|].1, id)
    requires (forall k :: 0 <= k < |mid| ==> !IsEquivalent(mid[k], shifts[|xions|].1)) ==>
               && id == |mid| && |after| == id + 1 && after[..id] == mid
               && ClosureOf(net, shifts[|xions|].1.(id := id), after[id])
    ensures InsertedSoFar(net, before, after, shifts, xions + [shifts[|xions|].0.(destId := id)])
  {
    var incoming := shifts[|xions|].1;
    if exists k :: 0 <= k < |mid| && IsEquivalent(mid[k], incoming) {
      InsertFound(net, before, mid, shifts, xions, id);
    } else {
      assert after == mid + [after[id]];
      AppendKeepsStatesOk(net, mid, incoming, after[id]);
      InsertAdded(net, before, mid, after[id], shifts, xions);
    }
  }

  /**
   * The second half of `create_pilot`'s step: each shifted state is inserted (found
   * or added) and its transition is pointed at the resulting id.
   */
  method InsertShifts(net: MachineNet, pilot: Pilot, shifts: seq<(PilotTransition, PilotState)>)
    returns (xions: seq<PilotTransition>)
    requires WellFormed(net) && StatesOk(net, pilot.states)
    requires forall i :: 0 <= i < |shifts| ==> (AllValid(net, shifts[i].1.candidates) && NoDup(shifts[i].1.candidates)
                                                && shifts[i].1.transitions == [])
    modifies pilot
    ensures |xions| == |shifts|
    ensures InsertedSoFar(net, old(pilot.states), pilot.states, shifts, xions)
  {
    xions := [];
    ghost var before := pilot.states;
    var i := 0;
    while i < |shifts|
      invariant i == |xions| <= |shifts|
      invariant InsertedSoFar(net, before, pilot.states, shifts, xions)
    {
      ghost var mid := pilot.states;
      var trans := shifts[i].0;
      var id := pilot.Insert(net, shifts[i].1);
      InsertStep(net, before, mid, pilot.states, shifts, xions, id);
      xions := xions + [trans.(destId := id)];
      i := i + 1;
    }
  }

  /** A placed shift transition is right for the state it leaves. */
  lemma TransitionFromShift(net: MachineNet, states: seq<PilotState>, state: PilotState, ch: char,
                            trans: PilotTransition, dest: PilotState, x: PilotTransition)
    requires WellFormed(net) && AllValid(net, state.candidates)
    requires ShiftOutcome(net, state, ch, trans, dest)
    requires Placed(states, (trans, dest), x)
    requires NoDup(states[x.destId].candidates)
    ensures TransitionOk(net, states, state.candidates, x)
  {
    var cs := state.candidates;
    var sh := ShiftResults(net, cs, ch);
    var cmap := trans.candidateMap;
    ShiftElems(sh, dest.candidates, cmap);
    assert BaseSet(dest) == BaseOf(ShiftedSet(sh));
    if NotReentrant(net) {
      forall y | y in dest.candidates ensures IsBase(y) {
        var i :| 0 <= i < |sh| && sh[i].Some? && sh[i].value == y;
        ShiftResultsAt(net, cs, ch, i);
        ShiftedIsBase(net, cs[i], ch);
      }
      assert BaseSet(dest) == Elems(dest.candidates);
      NoDupCard(dest.candidates);
      var target := states[x.destId];
      NoDupCard(target.candidates);
      SubsetCard(BaseSet(target), Elems(target.candidates));
    }
  }

  /** The transitions set on state `k` are sorted, carry the right labels and are right. */
  lemma ExpandedTransOk(net: MachineNet, inserted: seq<PilotState>, after: seq<PilotState>, k: nat,
                        chars: seq<char>, shifts: seq<(PilotTransition, PilotState)>, xions: seq<PilotTransition>)
    requires WellFormed(net) && StatesOk(net, inserted) && k < |inserted|
    requires after == inserted[k := inserted[k].(transitions := xions)]
    requires StrictlyIncreasingChars(chars)
    requires AllExist(net, inserted[k].candidates)
    requires forall ch :: ch in chars <==> LabelledBefore(net, inserted[k].candidates, |inserted[k].candidates|, ch)
    requires |shifts| == |chars| == |xions|
    requires forall i :: 0 <= i < |chars| ==> ShiftOutcome(net, inserted[k], chars[i], shifts[i].0, shifts[i].1)
    requires forall i :: 0 <= i < |xions| ==> Placed(inserted, shifts[i], xions[i])
    ensures TransOk(net, after, k)
  {
    var cs := inserted[k].candidates;
    assert after[k].candidates == cs;
    forall i | 0 <= i < |xions| ensures xions[i].character == chars[i] && TransitionOk(net, after, cs, xions[i]) {
      assert Placed(inserted, shifts[i], xions[i]);
      var d := xions[i].destId;
      assert after[d].candidates == inserted[d].candidates;
      assert Placed(after, shifts[i], xions[i]);
      TransitionFromShift(net, after, inserted[k], chars[i], shifts[i].0, shifts[i].1, xions[i]);
    }
    forall ch ensures HasLabel(xions, ch) <==> ch in chars {
      if ch in chars {
        var i :| 0 <= i < |chars| && chars[i] == ch;
        assert xions[i].character == ch;
      }
    }
  }

  /**
   * What one step of the worklist loop does to the states: state `k` receives its
   * transitions and is right, the other states stay as they were, the states added
   * have no transitions yet, and every added state is among the returned targets.
   */
  ghost predicate ExpandOutcome(net: MachineNet, before: seq<PilotState>, after: seq<PilotState>, k: int,
                                destIds: seq<int>)
  {
    && StatesOk(net, after)
    && 0 <= k < |before| <= |after|
    && (forall j :: 0 <= j < |before| && j != k ==> after[j] == before[j])
    && after[k].candidates == before[k].candidates
    && (forall j :: |before| <= j < |after| ==> after[j].transitions == [])
    && TransOk(net, after, k)
    && (forall i :: 0 <= i < |destIds| ==> 0 <= destIds[i] < |after|)
    && (forall j :: |before| <= j < |after| ==> j in destIds)
  }

  /** The targets of the transitions, in order (what is appended to the worklist). */
  function DestIds(xions: seq<PilotTransition>): (r: seq<int>)
    ensures |r| == |xions| && forall i :: 0 <= i < |xions| ==> r[i] == xions[i].destId
  {
    seq(|xions|, i requires 0 <= i < |xions| => xions[i].destId)
  }

  /** Setting the transitions of state `k` after the inserts completes the step. */
  lemma ExpandFrame(net: MachineNet, before: seq<PilotState>, inserted: seq<PilotState>, after: seq<PilotState>,
                    k: nat, shifts: seq<(PilotTransition, PilotState)>, xions: seq<PilotTransition>, destIds: seq<int>)
    requires InsertedSoFar(net, before, inserted, shifts, xions) && k < |before|
    requires after == inserted[k := inserted[k].(transitions := xions)]
    requires TransOk(net, after, k)
    requires |destIds| == |xions| && forall i :: 0 <= i < |xions| ==> destIds[i] == xions[i].destId
    requires forall i :: 0 <= i < |xions| ==> Placed(inserted, shifts[i], xions[i])
    ensures ExpandOutcome(net, before, after, k, destIds)
  {
    assert forall j :: 0 <= j < |before| ==> inserted[j] == before[j];
    assert forall j :: 0 <= j < |after| ==> after[j].candidates == inserted[j].candidates && after[j].id == inserted[j].id;
    assert forall j :: 0 <= j < |after| ==> BaseSet(after[j]) == BaseSet(inserted[j]);
    forall j | |before| <= j < |after| ensures j in destIds {
      assert Targeted(xions, j);
      var i :| 0 <= i < |xions| && xions[i].destId == j;
      assert destIds[i] == j;
    }
    forall i | 0 <= i < |destIds| ensures 0 <= destIds[i] < |after| {
      assert Placed(inserted, shifts[i], xions[i]);
    }
  }

  /** The body of `create_pilot`'s loop for an unvisited state. */
  method ExpandState(net: MachineNet, pilot: Pilot, stateId: int) returns (destIds: seq<int>)
    requires WellFormed(net) && StatesOk(net, pilot.states) && 0 <= stateId < |pilot.states|
    modifies pilot
    ensures ExpandOutcome(net, old(pilot.states), pilot.states, stateId, destIds)
  {
    ghost var before := pilot.states;
    assert before[stateId].id == stateId;
    var state := pilot.LookupState(stateId);
    assert state == before[stateId];
    ValidExist(net, state.candidates);
    var chars := CollectTransitions(net, state);
    var shifts := ShiftAll(net, state, chars);
    var xions := InsertShifts(net, pilot, shifts);
    ghost var inserted := pilot.states;
    assert inserted[stateId] == state;
    destIds := DestIds(xions);
    pilot.SetTransitions(stateId, xions);
    assert pilot.states == inserted[stateId := inserted[stateId].(transitions := xions)];
    ExpandedTransOk(net, inserted, pilot.states, stateId, chars, shifts, xions);
    ExpandFrame(net, before, inserted, pilot.states, stateId, shifts, xions, destIds);
  }

  /** Growing the list of states and leaving state `k` alone keeps `k` right. */
  lemma TransOkGrows(net: MachineNet, states: seq<PilotState>, states': seq<PilotState>, k: nat)
    requires TransOk(net, states, k) && |states| <= |states'|
    requires forall j :: 0 <= j < |states| ==> states'[j].candidates == states[j].candidates
    requires states'[k] == states[k]
    ensures TransOk(net, states', k)
  {
    var cs := states[k].candidates;
    var ts := states[k].transitions;
    forall i | 0 <= i < |ts| ensures TransitionOk(net, states', cs, ts[i]) {
      assert TransitionOk(net, states, cs, ts[i]);
      var d := ts[i].destId;
      assert BaseSet(states'[d]) == BaseSet(states[d]);
    }
  }

  /**
   * The invariant of `create_pilot`'s worklist loop: the states are consistent,
   * state 0 starts with the axiom's initial candidate, every id in the worklist and
   * in `visited` names a state, every state is visited or still in the worklist,
   * the visited states are expanded and right, and the others have no transitions.
   */
  ghost predicate BuildInv(net: MachineNet, states: seq<PilotState>, worklist: seq<int>, visited: set<int>,
                           init: Candidate)
  {
    && WellFormed(net) && StatesOk(net, states)
    && |states| > 0 && |states[0].candidates| > 0 && states[0].candidates[0] == init
    && (forall i :: 0 <= i < |worklist| ==> 0 <= worklist[i] < |states|)
    && (forall d :: d in visited ==> 0 <= d < |states|)
    && (forall k :: 0 <= k < |states| ==> k in visited || k in worklist)
    && (forall k :: k in visited ==> TransOk(net, states, k))
    && (forall k :: 0 <= k < |states| && k !in visited ==> states[k].transitions == [])
  }

  /** Popping an already visited id changes nothing else. */
  lemma BuildSkip(net: MachineNet, states: seq<PilotState>, worklist: seq<int>, visited: set<int>, init: Candidate)
    requires BuildInv(net, states, worklist, visited, init) && |worklist| > 0 && worklist[0] in visited
    ensures BuildInv(net, states, worklist[1..], visited, init)
  {
    forall k | 0 <= k < |states| && k !in visited ensures k in worklist[1..] {
      var i :| 0 <= i < |worklist| && worklist[i] == k;
      assert worklist[1..][i - 1] == k;
    }
  }

  /** The ids left in the worklist and the appended targets all name states. */
  lemma StepWorklist(worklist: seq<int>, destIds: seq<int>, n: nat, n': nat)
    requires |worklist| > 0 && n <= n'
    requires forall i :: 0 <= i < |worklist| ==> 0 <= worklist[i] < n
    requires forall i :: 0 <= i < |destIds| ==> 0 <= destIds[i] < n'
    ensures forall i :: 0 <= i < |worklist[1..] + destIds| ==> 0 <= (worklist[1..] + destIds)[i] < n'
  {
    var wl := worklist[1..] + destIds;
    forall i | 0 <= i < |wl| ensures 0 <= wl[i] < n' {
      if i < |worklist| - 1 {
        assert wl[i] == worklist[i + 1];
      } else {
        assert wl[i] == destIds[i - |worklist| + 1];
      }
    }
  }

  /** Every state is still visited or waiting after the popped id is visited and the targets appended. */
  lemma StepCoverage(worklist: seq<int>, destIds: seq<int>, visited: set<int>, n: nat, n': nat)
    requires |worklist| > 0
    requires forall k :: 0 <= k < n ==> k in visited || k in worklist
    requires forall j :: n <= j < n' ==> j in destIds
    ensures forall k :: 0 <= k < n' ==> k in visited + {worklist[0]} || k in worklist[1..] + destIds
  {
    var wl := worklist[1..] + destIds;
    forall k | 0 <= k < n' && k !in visited + {worklist[0]} ensures k in wl {
      if k < n {
        var i :| 0 <= i < |worklist| && worklist[i] == k;
        assert wl[i - 1] == k;
      } else {
        assert k in destIds;
        var i :| 0 <= i < |destIds| && destIds[i] == k;
        assert wl[|worklist| - 1 + i] == k;
      }
    }
  }

  /** The states visited before stay right, and the others other than `k0` keep no transitions. */
  lemma StepStates(net: MachineNet, states: seq<PilotState>, states': seq<PilotState>, visited: set<int>,
                   k0: int, destIds: seq<int>)
    requires ExpandOutcome(net, states, states', k0, destIds) && k0 !in visited
    requires forall k :: k in visited ==> TransOk(net, states, k)
    requires forall k :: 0 <= k < |states| && k !in visited ==> states[k].transitions == []
    ensures forall k :: k in visited + {k0} ==> TransOk(net, states', k)
    ensures forall k :: 0 <= k < |states'| && k !in visited + {k0} ==> states'[k].transitions == []
  {
    assert forall j :: 0 <= j < |states| ==> states'[j].candidates == states[j].candidates;
    forall k | k in visited ensures TransOk(net, states', k) {
      TransOkGrows(net, states, states', k);
    }
  }

  /** Expanding the popped, unvisited id keeps the invariant. */
  lemma BuildStep(net: MachineNet, states: seq<PilotState>, states': seq<PilotState>, worklist: seq<int>,
                  visited: set<int>, init: Candidate, destIds: seq<int>)
    requires BuildInv(net, states, worklist, visited, init) && |worklist| > 0 && worklist[0] !in visited
    requires ExpandOutcome(net, states, states', worklist[0], destIds)
    ensures BuildInv(net, states', worklist[1..] + destIds, visited + {worklist[0]}, init)
  {
    if worklist[0] != 0 {
      assert states'[0] == states[0];
    }
    StepWorklist(worklist, destIds, |states|, |states'|);
    StepCoverage(worklist, destIds, visited, |states|, |states'|);
    StepStates(net, states, states', visited, worklist[0], destIds);
  }

  /** The first `insert` into the empty pilot sets up the invariant. */
  lemma BuildStart(net: MachineNet, init: Candidate, states: seq<PilotState>, first: int)
    requires WellFormed(net) && ValidCandidate(net, init)
    requires first == 0 && |states| == 1 && ClosureOf(net, PilotState(0, [init], []), states[0])
    ensures BuildInv(net, states, [first], {}, init)
  {
    assert states == [] + [states[0]];
    AppendKeepsStatesOk(net, [], PilotState(0, [init], []), states[0]);
  }

  /** The base sets of the first `n` states. */
  ghost function BaseFamily(states: seq<PilotState>, n: nat): set<set<Candidate>>
    requires n <= |states|
  {
    if n == 0 then {} else BaseFamily(states, n - 1) + {BaseSet(states[n - 1])}
  }

  lemma {:induction false} BaseFamilyMembers(states: seq<PilotState>, n: nat, b: set<Candidate>)
    requires n <= |states|
    ensures b in BaseFamily(states, n) <==> exists k :: 0 <= k < n && b == BaseSet(states[k])
  {
    if n > 0 {
      BaseFamilyMembers(states, n - 1, b);
    }
  }

  /** Distinct base sets give a family with one member per state. */
  lemma {:induction false} BaseFamilyCard(states: seq<PilotState>, n: nat)
    requires n <= |states|
    requires forall a, b :: 0 <= a < b < |states| ==> BaseSet(states[a]) != BaseSet(states[b])
    ensures |BaseFamily(states, n)| == n
  {
    if n > 0 {
      BaseFamilyCard(states, n - 1);
      BaseFamilyMembers(states, n - 1, BaseSet(states[n - 1]));
    }
  }

  /**
   * There are at most 2^|U| states, U the finite set of candidates the net allows,
   * since their base sets are distinct subsets of U.
   */
  lemma StatesBound(net: MachineNet, states: seq<PilotState>)
    requires StatesOk(net, states)
    ensures |states| <= Pow2(|Universe(net)|)
  {
    var f := BaseFamily(states, |states|);
    BaseFamilyCard(states, |states|);
    forall b | b in f ensures b <= Universe(net) {
      BaseFamilyMembers(states, |states|, b);
      var k :| 0 <= k < |states| && b == BaseSet(states[k]);
      forall c | c in b ensures c in Universe(net) {
        ValidInUniverse(net, c);
      }
    }
    FamilyBound(f, Universe(net));
  }

  /**
   * `create_pilot`: starts from the closure of the axiom's initial candidate (lookahead
   * the end marker) and expands states from a first-in first-out worklist until every
   * state reached has its transitions. The result has at least one state, state 0
   * begins with the initial candidate, every state is consistent and expanded, and
   * there are at most 2^|U| states.
   */
  method CreatePilot(net: MachineNet) returns (pilot: Pilot)
    requires WellFormed(net) && HasNetState(net, 'S', 0)
    ensures StatesOk(net, pilot.states)
    ensures |pilot.states| > 0 && |pilot.states[0].candidates| > 0
    ensures pilot.states[0].candidates[0] == Candidate('S', 0, EndMarker, NetLookupState(net, 'S', 0).isFinal)
    ensures forall k :: 0 <= k < |pilot.states| ==> TransOk(net, pilot.states, k)
    ensures |pilot.states| <= Pow2(|Universe(net)|)
  {
    var firstState := NetLookupState(net, 'S', 0);
    var init := Candidate('S', 0, EndMarker, firstState.isFinal);
    var initState := PilotState(0, [init], []);
    pilot := new Pilot();
    var first := pilot.Insert(net, initState);
    BuildStart(net, init, pilot.states, first);
    var worklist := [first];
    var visited: set<int> := {};
    while |worklist| > 0
      invariant BuildInv(net, pilot.states, worklist, visited, init)
      invariant |visited| <= Pow2(|Universe(net)|)
      decreases Pow2(|Universe(net)|) - |visited|, |worklist|
    {
      var stateId := worklist[0];
      if stateId in visited {
        BuildSkip(net, pilot.states, worklist, visited, init);
        worklist := worklist[1..];
      } else {
        ghost var before := pilot.states;
        var destIds := ExpandState(net, pilot, stateId);
        BuildStep(net, before, pilot.states, worklist, visited, init, destIds);
        worklist := worklist[1..] + destIds;
        visited := visited + {stateId};
        RangeCard(visited, |pilot.states|);
        StatesBound(net, pilot.states);
      }
    }
    StatesBound(net, pilot.states);
  }
}
