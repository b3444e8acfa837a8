/**
 * The parser of machine-net files. A file is `mnet { machine S { state 0 { initial;
 * a -> 1; } … } … }` (or a single machine); the parser reads it from a token stream
 * with one token of lookahead and gives up at the first unexpected token.
 *
 * The grammar is stated as functions over the token sequence (`ParsedState`,
 * `ParsedMachine`, `ParsedNet`, …, each giving the result and the position after
 * it); the `Parser` class, which advances its lookahead step by step as the
 * toolkit does, is proved to compute exactly those functions. A printer back to
 * tokens is the partner: parsing what it prints gives back the machine net.
 */
module NetParser {
  import opened Wrappers
  import opened Fsm
  import opened Mnet

  /** The tokens the parser tells apart; the lexer's other tokens are `Other`. */
  datatype TokenValue =
    | KwMNet | KwMachine | KwState | KwInitial | KwFinal
    | Ident(c: char) | Number(n: int)
    | LBrace | RBrace | RArrow | Semi | EndOfFile
    | Other

  /** The token at position `p`, if the stream still has one. */
  function Look(ts: seq<TokenValue>, p: nat): Option<TokenValue>
  {
    if p < |ts| then Some(ts[p]) else None
  }

  predicate IsAsciiUppercase(c: char)
  {
    'A' <= c <= 'Z'
  }

  // ---------------------------------------------------------------------------
  // The grammar

  /**
   * The items of a state body from position `p` on, added to `st`, up to and
   * including the closing brace: `initial;`, `final;` and `x -> N;` in any order
   * and number.
   */
  function ParsedBody(ts: seq<TokenValue>, p: nat, st: State): (r: Option<(State, nat)>)
    ensures r.Some? ==> p < r.value.1 <= |ts|
    decreases |ts| - p
  {
    if p >= |ts| then None
    else match ts[p]
      case KwInitial =>
        if Look(ts, p + 1) == Some(Semi) then ParsedBody(ts, p + 2, st.(isInitial := true)) else None
      case KwFinal =>
        if Look(ts, p + 1) == Some(Semi) then ParsedBody(ts, p + 2, st.(isFinal := true)) else None
      case Ident(c) =>
        if Look(ts, p + 1) == Some(RArrow) && p + 2 < |ts| && ts[p + 2].Number? && Look(ts, p + 3) == Some(Semi)
        then ParsedBody(ts, p + 4, st.(transitions := st.transitions + [Transition(c, ts[p + 2].n)]))
        else None
      case RBrace => Some((st, p + 1))
      case _ => None
  }

  /** `state N { … }` at position `p`. */
  function ParsedState(ts: seq<TokenValue>, p: nat): (r: Option<(State, nat)>)
    ensures r.Some? ==> p < r.value.1 <= |ts|
  {
    if Look(ts, p) == Some(KwState) && p + 1 < |ts| && ts[p + 1].Number? && Look(ts, p + 2) == Some(LBrace)
    then ParsedBody(ts, p + 3, State(ts[p + 1].n, [], false, false))
    else None
  }

  /** The states of a machine body from position `p` on, appended to `m`, and its closing brace. */
  function ParsedStates(ts: seq<TokenValue>, p: nat, m: Machine): (r: Option<(Machine, nat)>)
    ensures r.Some? ==> p < r.value.1 <= |ts|
    decreases |ts| - p
  {
    if Look(ts, p) == Some(KwState) then
      match ParsedState(ts, p)
      case None => None
      case Some((s, q)) => ParsedStates(ts, q, m.(states := m.states + [s]))
    else if Look(ts, p) == Some(RBrace) then Some((m, p + 1))
    else None
  }

  /** `machine X { … }` at position `p`, `X` an uppercase letter. */
  function ParsedMachine(ts: seq<TokenValue>, p: nat): (r: Option<(Machine, nat)>)
    ensures r.Some? ==> p < r.value.1 <= |ts|
  {
    if Look(ts, p) == Some(KwMachine) && p + 1 < |ts| && ts[p + 1].Ident? && IsAsciiUppercase(ts[p + 1].c)
       && Look(ts, p + 2) == Some(LBrace)
    then ParsedStates(ts, p + 3, Machine(ts[p + 1].c, []))
    else None
  }

  /** The machines of a net body from position `p` on, appended to `net`, and its closing brace. */
  function ParsedMachines(ts: seq<TokenValue>, p: nat, net: MachineNet): (r: Option<(MachineNet, nat)>)
    ensures r.Some? ==> p < r.value.1 <= |ts|
    decreases |ts| - p
  {
    if Look(ts, p) == Some(KwMachine) then
      match ParsedMachine(ts, p)
      case None => None
      case Some((m, q)) => ParsedMachines(ts, q, net.(machines := net.machines + [m]))
    else if Look(ts, p) == Some(RBrace) then Some((net, p + 1))
    else None
  }

  /** `mnet { … }` at position `p`. */
  function ParsedNet(ts: seq<TokenValue>, p: nat): (r: Option<(MachineNet, nat)>)
    ensures r.Some? ==> p < r.value.1 <= |ts|
  {
    if Look(ts, p) == Some(KwMNet) && Look(ts, p + 1) == Some(LBrace)
    then ParsedMachines(ts, p + 2, MachineNet([]))
    else None
  }

  /** A whole file holding one machine: the machine, then the end-of-file token. */
  function ParsedMachineFile(ts: seq<TokenValue>): Option<Machine>
  {
    match ParsedMachine(ts, 0)
    case None => None
    case Some((m, q)) => if Look(ts, q) == Some(EndOfFile) then Some(m) else None
  }

  /** A whole file holding a machine net: the net, then the end-of-file token. */
  function ParsedNetFile(ts: seq<TokenValue>): Option<MachineNet>
  {
    match ParsedNet(ts, 0)
    case None => None
    case Some((net, q)) => if Look(ts, q) == Some(EndOfFile) then Some(net) else None
  }

  /** The value of a parse, without the position after it. */
  function Value<T>(r: Option<(T, nat)>): Option<T>
  {
    if r.None? then None else Some(r.value.0)
  }

  // ---------------------------------------------------------------------------
  // The parser

  /** `Parser`: the lexer, as the tokens it hands out in order, and one token of lookahead. */
  class Parser {
    const tokens: seq<TokenValue>
    var next: nat
    var lookahead: Option<TokenValue>

    /** The lookahead is the last token the lexer handed out; none means the stream is used up. */
    predicate Valid()
      reads this
    {
      && next <= |tokens|
      && (lookahead.Some? ==> 0 < next && lookahead.value == tokens[next - 1])
      && (lookahead.None? ==> next == |tokens|)
    }

    /** The position of the lookahead in the token sequence. */
    function Pos(): nat
      reads this
      requires Valid()
    {
      if lookahead.Some? then next - 1 else |tokens|
    }

    lemma LookaheadAt()
      requires Valid()
      ensures lookahead == Look(tokens, Pos())
    {
    }

    /** `new`: the lexer hands out the first token. */
    constructor (ts: seq<TokenValue>)
      ensures Valid() && tokens == ts && Pos() == 0
    {
      tokens := ts;
      next := 0;
      new;
      lookahead := LexNext();
    }

    /** The lexer's `next`: the following token, or nothing at the end. */
    method LexNext() returns (t: Option<TokenValue>)
      requires next <= |tokens|
      modifies this`next
      ensures t == Look(tokens, old(next))
      ensures next == if old(next) < |tokens| then old(next) + 1 else old(next)
    {
      if next < |tokens| {
        t := Some(tokens[next]);
        next := next + 1;
      } else {
        t := None;
      }
    }

    /** `advance`: hands back the lookahead and loads the next token; nothing happens at the end. */
    method Advance() returns (current: Option<TokenValue>)
      requires Valid()
      modifies this`next, this`lookahead
      ensures Valid() && current == old(lookahead)
      ensures old(lookahead).None? ==> lookahead.None? && next == old(next)
      ensures old(lookahead).Some? ==> Pos() == old(Pos()) + 1
    {
      if lookahead.Some? {
        current := lookahead;
        lookahead := LexNext();
      } else {
        current := None;
      }
    }

    /** `expect!` for a token without a payload: consumes it if it is the lookahead. */
    method Expect(t: TokenValue) returns (ok: bool)
      requires Valid()
      modifies this`next, this`lookahead
      ensures Valid() && (ok <==> Look(tokens, old(Pos())) == Some(t))
      ensures ok ==> Pos() == old(Pos()) + 1
    {
      LookaheadAt();
      ok := lookahead == Some(t);
      if ok {
        var _ := Advance();
      }
    }

    /** `expect!` for a number: consumes it and hands back its value if it is the lookahead. */
    method ExpectNumber() returns (n: Option<int>)
      requires Valid()
      modifies this`next, this`lookahead
      ensures Valid()
      ensures n.Some? <==> old(Pos()) < |tokens| && tokens[old(Pos())].Number?
      ensures n.Some? ==> n.value == tokens[old(Pos())].n && Pos() == old(Pos()) + 1
    {
      LookaheadAt();
      if lookahead.Some? && lookahead.value.Number? {
        n := Some(lookahead.value.n);
        var _ := Advance();
      } else {
        n := None;
      }
    }

    /** `parse_state`. */
    method ParseState() returns (r: Option<State>)
      requires Valid()
      modifies this
      ensures Valid() && r == Value(ParsedState(tokens, old(Pos())))
      ensures r.Some? ==> Pos() == ParsedState(tokens, old(Pos())).value.1
    {
      ghost var p0 := Pos();
      var ok := Expect(KwState);
      if !ok {
        return None;
      }
      var id := ExpectNumber();
      if id.None? {
        return None;
      }
      var state := State(id.value, [], false, false);
      ok := Expect(LBrace);
      if !ok {
        return None;
      }
      r := ParseBody(state);
      assert ParsedState(tokens, p0) == ParsedBody(tokens, p0 + 3, state);
    }

    /** The item loop of `parse_state` and its closing brace. */
    method ParseBody(st: State) returns (r: Option<State>)
      requires Valid()
      modifies this
      ensures Valid() && r == Value(ParsedBody(tokens, old(Pos()), st))
      ensures r.Some? ==> Pos() == ParsedBody(tokens, old(Pos()), st).value.1
    {
      ghost var goal := ParsedBody(tokens, Pos(), st);
      var state := st;
      while lookahead == Some(KwInitial) || lookahead == Some(KwFinal) || (lookahead.Some? && lookahead.value.Ident?)
        invariant Valid() && ParsedBody(tokens, Pos(), state) == goal
        decreases |tokens| - Pos()
      {
        var item := ParseItem(state);
        if item.None? {
          return None;
        }
        state := item.value;
      }
      LookaheadAt();
      var ok := Expect(RBrace);
      if !ok {
        return None;
      }
      r := Some(state);
    }

    /** One pass of the item loop of `parse_state`: `initial;`, `final;` or `x -> N;`. */
    method ParseItem(state: State) returns (r: Option<State>)
      requires Valid()
      requires lookahead == Some(KwInitial) || lookahead == Some(KwFinal) || (lookahead.Some? && lookahead.value.Ident?)
      modifies this`next, this`lookahead
      ensures Valid()
      ensures r.None? ==> ParsedBody(tokens, old(Pos()), state).None?
      ensures r.Some? ==> old(Pos()) < Pos() && ParsedBody(tokens, Pos(), r.value) == ParsedBody(tokens, old(Pos()), state)
    {
      LookaheadAt();
      ghost var p := Pos();
      var ok: bool;
      if lookahead == Some(KwInitial) {
        var _ := Advance();
        ok := Expect(Semi);
        r := if ok then Some(state.(isInitial := true)) else None;
      } else if lookahead == Some(KwFinal) {
        var _ := Advance();
        ok := Expect(Semi);
        r := if ok then Some(state.(isFinal := true)) else None;
      } else {
        var c := lookahead.value.c;
        var _ := Advance();
        ok := Expect(RArrow);
        if !ok {
          return None;
        }
        var destId := ExpectNumber();
        if destId.None? {
          return None;
        }
        ok := Expect(Semi);
        r := if ok then Some(state.(transitions := state.transitions + [Transition(c, destId.value)])) else None;
      }
    }

    /** `parse_machine`. */
    method ParseMachine() returns (r: Option<Machine>)
      requires Valid()
      modifies this
      ensures Valid() && r == Value(ParsedMachine(tokens, old(Pos())))
      ensures r.Some? ==> Pos() == ParsedMachine(tokens, old(Pos())).value.1
    {
      ghost var p0 := Pos();
      LookaheadAt();
      if lookahead != Some(KwMachine) {
        return None;
      }
      var _ := Advance();
      LookaheadAt();
      if !(lookahead.Some? && lookahead.value.Ident?) {
        return None;
      }
      var name := lookahead.value.c;
      if !IsAsciiUppercase(name) {
        return None;
      }
      var _ := Advance();
      var machine := Machine(name, []);
      LookaheadAt();
      if lookahead != Some(LBrace) {
        return None;
      }
      var _ := Advance();
      ghost var goal := ParsedStates(tokens, Pos(), machine);
      assert ParsedMachine(tokens, p0) == goal;
      while lookahead == Some(KwState)
        invariant Valid() && ParsedStates(tokens, Pos(), machine) == goal
        decreases |tokens| - Pos()
      {
        ghost var p := Pos();
        LookaheadAt();
        var state := ParseState();
        if state.None? {
          return None;
        }
        machine := machine.(states := machine.states + [state.value]);
      }
      LookaheadAt();
      if lookahead != Some(RBrace) {
        return None;
      }
      var _ := Advance();
      r := Some(machine);
    }

    /** `parse_machine_file`: a machine, then the end of the file. */
    method ParseMachineFile() returns (r: Option<Machine>)
      requires Valid() && Pos() == 0
      modifies this
      ensures Valid() && r == ParsedMachineFile(tokens)
    {
      var m := ParseMachine();
      if m.None? {
        return None;
      }
      LookaheadAt();
      if lookahead != Some(EndOfFile) {
        return None;
      }
      var _ := Advance();
      r := m;
    }

    /** `parse_mnet`. */
    method ParseMnet() returns (r: Option<MachineNet>)
      requires Valid()
      modifies this
      ensures Valid() && r == Value(ParsedNet(tokens, old(Pos())))
      ensures r.Some? ==> Pos() == ParsedNet(tokens, old(Pos())).value.1
    {
      ghost var p0 := Pos();
      var machines: seq<Machine> := [];
      LookaheadAt();
      if lookahead != Some(KwMNet) {
        return None;
      }
      var _ := Advance();
      LookaheadAt();
      if lookahead != Some(LBrace) {
        return None;
      }
      var _ := Advance();
      ghost var goal := ParsedMachines(tokens, Pos(), MachineNet([]));
      assert ParsedNet(tokens, p0) == goal;
      while lookahead == Some(KwMachine)
        invariant Valid() && ParsedMachines(tokens, Pos(), MachineNet(machines)) == goal
        decreases |tokens| - Pos()
      {
        LookaheadAt();
        var mach := ParseMachine();
        if mach.None? {
          return None;
        }
        machines := machines + [mach.value];
      }
      LookaheadAt();
      if lookahead != Some(RBrace) {
        return None;
      }
      var _ := Advance();
      r := Some(MachineNet(machines));
    }

    /** `parse_mnet_file`: a machine net, then the end of the file. */
    method ParseMnetFile() returns (r: Option<MachineNet>)
      requires Valid() && Pos() == 0
      modifies this
      ensures Valid() && r == ParsedNetFile(tokens)
    {
      var net := ParseMnet();
      if net.None? {
        return None;
      }
      LookaheadAt();
      if lookahead != Some(EndOfFile) {
        return None;
      }
      var _ := Advance();
      r := net;
    }
  }

  // ---------------------------------------------------------------------------
  // What a parse reads off the tokens

  /** The characters of the `Ident` tokens, left to right. */
  function Idents(w: seq<TokenValue>): seq<char>
  {
    if w == [] then [] else (if w[0].Ident? then [w[0].c] else []) + Idents(w[1..])
  }

  /** The values of the `Number` tokens, left to right. */
  function Numbers(w: seq<TokenValue>): seq<int>
  {
    if w == [] then [] else (if w[0].Number? then [w[0].n] else []) + Numbers(w[1..])
  }

  /** The characters the transitions move on, in order. */
  function Characters(ts: seq<Transition>): seq<char>
  {
    if ts == [] then [] else [ts[0].character] + Characters(ts[1..])
  }

  /** The destinations of the transitions, in order. */
  function Destinations(ts: seq<Transition>): seq<int>
  {
    if ts == [] then [] else [ts[0].dest] + Destinations(ts[1..])
  }

  lemma {:induction false} IdentsAppend(a: seq<TokenValue>, b: seq<TokenValue>)
    ensures Idents(a + b) == Idents(a) + Idents(b)
  {
    if a == [] {
      assert a + b == b;
    } else {
      var h := if a[0].Ident? then [a[0].c] else [];
      assert (a + b)[1..] == a[1..] + b;
      calc {
        Idents(a + b);
        h + Idents(a[1..] + b);
        { IdentsAppend(a[1..], b); }
        h + (Idents(a[1..]) + Idents(b));
        (h + Idents(a[1..])) + Idents(b);
      }
    }
  }

  lemma {:induction false} NumbersAppend(a: seq<TokenValue>, b: seq<TokenValue>)
    ensures Numbers(a + b) == Numbers(a) + Numbers(b)
  {
    if a == [] {
      assert a + b == b;
    } else {
      var h := if a[0].Number? then [a[0].n] else [];
      assert (a + b)[1..] == a[1..] + b;
      calc {
        Numbers(a + b);
        h + Numbers(a[1..] + b);
        { NumbersAppend(a[1..], b); }
        h + (Numbers(a[1..]) + Numbers(b));
        (h + Numbers(a[1..])) + Numbers(b);
      }
    }
  }

  lemma {:induction false} CharactersAppend(a: seq<Transition>, b: seq<Transition>)
    ensures Characters(a + b) == Characters(a) + Characters(b)
  {
    if a == [] {
      assert a + b == b;
    } else {
      assert (a + b)[1..] == a[1..] + b;
      calc {
        Characters(a + b);
        [a[0].character] + Characters(a[1..] + b);
        { CharactersAppend(a[1..], b); }
        [a[0].character] + (Characters(a[1..]) + Characters(b));
        ([a[0].character] + Characters(a[1..])) + Characters(b);
      }
    }
  }

  lemma {:induction false} DestinationsAppend(a: seq<Transition>, b: seq<Transition>)
    ensures Destinations(a + b) == Destinations(a) + Destinations(b)
  {
    if a == [] {
      assert a + b == b;
    } else {
      assert (a + b)[1..] == a[1..] + b;
      calc {
        Destinations(a + b);
        [a[0].dest] + Destinations(a[1..] + b);
        { DestinationsAppend(a[1..], b); }
        [a[0].dest] + (Destinations(a[1..]) + Destinations(b));
        ([a[0].dest] + Destinations(a[1..])) + Destinations(b);
      }
    }
  }

  /**
   * Two transition lists moving on the same characters to the same destinations are
   * equal: `StateReads` below thus fixes the transitions of a parsed state.
   */
  lemma {:induction false} TransitionsDetermined(a: seq<Transition>, b: seq<Transition>)
    requires Characters(a) == Characters(b) && Destinations(a) == Destinations(b)
    ensures a == b
  {
    if a != [] && b != [] {
      assert Characters(a)[1..] == Characters(a[1..]) && Characters(b)[1..] == Characters(b[1..]);
      assert Destinations(a)[1..] == Destinations(a[1..]) && Destinations(b)[1..] == Destinations(b[1..]);
      TransitionsDetermined(a[1..], b[1..]);
      assert a[0] == Transition(Characters(a)[0], Destinations(a)[0]);
      assert b[0] == Transition(Characters(b)[0], Destinations(b)[0]);
      assert a == [a[0]] + a[1..] && b == [b[0]] + b[1..];
    }
  }

  /**
   * What a state body read from `p` to `q` adds to `st`, giving `s`: it ends in the
   * closing brace; a flag is set exactly when its keyword occurs, and the transitions
   * are the `Ident` characters and `Number` values, in order.
   */
  ghost predicate BodyRead(ts: seq<TokenValue>, p: nat, q: nat, st: State, s: State)
    requires p < q <= |ts|
  {
    && ts[q - 1] == RBrace && s.id == st.id
    && (s.isInitial <==> st.isInitial || KwInitial in ts[p..q])
    && (s.isFinal <==> st.isFinal || KwFinal in ts[p..q])
    && Characters(s.transitions) == Characters(st.transitions) + Idents(ts[p..q])
    && Destinations(s.transitions) == Destinations(st.transitions) + Numbers(ts[p..q])
  }

  /** Every state body the grammar accepts is read as `BodyRead` says. */
  lemma {:induction false} BodyReads(ts: seq<TokenValue>, p: nat, st: State)
    requires ParsedBody(ts, p, st).Some?
    ensures var (s, q) := ParsedBody(ts, p, st).value; BodyRead(ts, p, q, st, s)
    decreases |ts| - p, 1
  {
    match ts[p]
    case KwInitial => FlagReads(ts, p, st, st.(isInitial := true));
    case KwFinal => FlagReads(ts, p, st, st.(isFinal := true));
    case Ident(_) => ArrowReads(ts, p, st);
    case RBrace =>
      var q := p + 1;
      assert ts[p..q] == [RBrace];
      assert Idents([RBrace]) == Idents([RBrace][1..]);
      assert Numbers([RBrace]) == Numbers([RBrace][1..]);
  }

  /** `BodyReads` for a body that starts with `initial;` or `final;`. */
  lemma {:induction false} FlagReads(ts: seq<TokenValue>, p: nat, st: State, st': State)
    requires ParsedBody(ts, p, st).Some? && p + 1 < |ts| && (ts[p] == KwInitial || ts[p] == KwFinal) && ts[p + 1] == Semi
    requires ParsedBody(ts, p, st) == ParsedBody(ts, p + 2, st')
    requires st'.id == st.id && st'.transitions == st.transitions
    requires (st'.isInitial <==> st.isInitial || ts[p] == KwInitial) && (st'.isFinal <==> st.isFinal || ts[p] == KwFinal)
    ensures var (s, q) := ParsedBody(ts, p, st).value; BodyRead(ts, p, q, st, s)
    decreases |ts| - p, 0
  {
    var t := ts[p];
    var (s, q) := ParsedBody(ts, p, st).value;
    BodyReads(ts, p + 2, st');
    assert ts[p..p + 2] == [t, Semi];
    FlagEffect(t, st, st');
    BodyStep(ts, p, [t, Semi], q, st', st, s);
  }

  /** `BodyReads` for a body that starts with a transition `x -> N;`. */
  lemma {:induction false} ArrowReads(ts: seq<TokenValue>, p: nat, st: State)
    requires ParsedBody(ts, p, st).Some? && p < |ts| && ts[p].Ident?
    ensures var (s, q) := ParsedBody(ts, p, st).value; BodyRead(ts, p, q, st, s)
    decreases |ts| - p, 0
  {
    var c := ts[p].c;
    var n := ts[p + 2].n;
    var st' := st.(transitions := st.transitions + [Transition(c, n)]);
    assert ParsedBody(ts, p, st) == ParsedBody(ts, p + 4, st');
    var (s, q) := ParsedBody(ts, p, st).value;
    BodyReads(ts, p + 4, st');
    assert ts[p..p + 4] == [Ident(c), RArrow, Number(n), Semi];
    ArrowEffect(c, n, st);
    BodyStep(ts, p, [Ident(c), RArrow, Number(n), Semi], q, st', st, s);
  }

  /** What the item tokens `w` do to a state: `st` becomes `st'`. */
  ghost predicate ItemEffect(w: seq<TokenValue>, st: State, st': State)
  {
    && st'.id == st.id
    && (st'.isInitial <==> st.isInitial || KwInitial in w)
    && (st'.isFinal <==> st.isFinal || KwFinal in w)
    && Characters(st'.transitions) == Characters(st.transitions) + Idents(w)
    && Destinations(st'.transitions) == Destinations(st.transitions) + Numbers(w)
  }

  lemma FlagEffect(t: TokenValue, st: State, st': State)
    requires t == KwInitial || t == KwFinal
    requires st'.id == st.id && st'.transitions == st.transitions
    requires (st'.isInitial <==> st.isInitial || t == KwInitial) && (st'.isFinal <==> st.isFinal || t == KwFinal)
    ensures ItemEffect([t, Semi], st, st')
  {
    FlagTail(t);
  }

  lemma ArrowEffect(c: char, n: int, st: State)
    ensures ItemEffect([Ident(c), RArrow, Number(n), Semi], st, st.(transitions := st.transitions + [Transition(c, n)]))
  {
    ArrowItem(c, n);
    CharactersAppend(st.transitions, [Transition(c, n)]);
    DestinationsAppend(st.transitions, [Transition(c, n)]);
    assert Characters([Transition(c, n)]) == [c] && Destinations([Transition(c, n)]) == [n];
  }

  /** An item `w` taking `st` to `st'`, then the rest of the body read from `st'`. */
  lemma BodyStep(ts: seq<TokenValue>, p: nat, w: seq<TokenValue>, q: nat, st': State, st: State, s: State)
    requires p + |w| < q <= |ts| && ts[p..p + |w|] == w && BodyRead(ts, p + |w|, q, st', s)
    requires ItemEffect(w, st, st')
    ensures BodyRead(ts, p, q, st, s)
  {
    var rest := ts[p + |w|..q];
    assert ts[p..q] == w + rest;
    assert KwInitial in ts[p..q] <==> KwInitial in w || KwInitial in rest;
    assert KwFinal in ts[p..q] <==> KwFinal in w || KwFinal in rest;
    IdentsAppend(w, rest);
    NumbersAppend(w, rest);
    ConcatAssoc(Characters(st.transitions), Idents(w), Idents(rest));
    ConcatAssoc(Destinations(st.transitions), Numbers(w), Numbers(rest));
  }

  lemma ConcatAssoc<T>(a: seq<T>, b: seq<T>, c: seq<T>)
    ensures (a + b) + c == a + (b + c)
  {
  }

  lemma ArrowItem(c: char, n: int)
    ensures Idents([Ident(c), RArrow, Number(n), Semi]) == [c]
    ensures Numbers([Ident(c), RArrow, Number(n), Semi]) == [n]
  {
    var w := [Ident(c), RArrow, Number(n), Semi];
    assert w[1..] == [RArrow, Number(n), Semi];
    assert w[1..][1..] == [Number(n), Semi];
    FlagTail(Number(n));
    assert Idents(w[1..][1..]) == [] && Numbers(w[1..][1..]) == [n];
    assert Idents(w[1..]) == [] && Numbers(w[1..]) == [n];
  }

  /** A token followed by a semicolon. */
  lemma FlagTail(t: TokenValue)
    ensures Idents([t, Semi]) == (if t.Ident? then [t.c] else [])
    ensures Numbers([t, Semi]) == (if t.Number? then [t.n] else [])
  {
    assert [t, Semi][1..] == [Semi];
    assert [Semi][1..] == [];
  }

  /**
   * A state read from `p` to `q`: `state N {` and its closing brace around the
   * body; the flags are set exactly when their keywords occur in the body, and the
   * transitions are its `Ident` characters and `Number` values, in order.
   */
  lemma StateReads(ts: seq<TokenValue>, p: nat)
    requires ParsedState(ts, p).Some?
    ensures var (s, q) := ParsedState(ts, p).value;
      && p + 3 < q && ts[p] == KwState && ts[p + 1] == Number(s.id) && ts[p + 2] == LBrace && ts[q - 1] == RBrace
      && (s.isInitial <==> KwInitial in ts[p + 3..q])
      && (s.isFinal <==> KwFinal in ts[p + 3..q])
      && Characters(s.transitions) == Idents(ts[p + 3..q])
      && Destinations(s.transitions) == Numbers(ts[p + 3..q])
  {
    var st := State(ts[p + 1].n, [], false, false);
    BodyReads(ts, p + 3, st);
  }

  /** The states of a machine body are appended to `m`; its name stays. */
  lemma {:induction false} StatesKeepName(ts: seq<TokenValue>, p: nat, m: Machine)
    requires ParsedStates(ts, p, m).Some?
    ensures ParsedStates(ts, p, m).value.0.name == m.name
    decreases |ts| - p
  {
    if Look(ts, p) == Some(KwState) {
      var q := ParsedState(ts, p).value.1;
      StatesKeepName(ts, q, m.(states := m.states + [ParsedState(ts, p).value.0]));
    }
  }

  /** A machine the grammar accepts is named by its uppercase letter after `machine`. */
  lemma MachineNamed(ts: seq<TokenValue>, p: nat)
    requires ParsedMachine(ts, p).Some?
    ensures var m := ParsedMachine(ts, p).value.0; ts[p + 1] == Ident(m.name) && IsAsciiUppercase(m.name)
  {
    StatesKeepName(ts, p + 3, Machine(ts[p + 1].c, []));
  }

  /** Every machine of a net the grammar accepts has an uppercase name. */
  lemma {:induction false} MachinesNamed(ts: seq<TokenValue>, p: nat, net: MachineNet)
    requires ParsedMachines(ts, p, net).Some?
    requires forall m :: m in net.machines ==> IsAsciiUppercase(m.name)
    ensures forall m :: m in ParsedMachines(ts, p, net).value.0.machines ==> IsAsciiUppercase(m.name)
    decreases |ts| - p
  {
    if Look(ts, p) == Some(KwMachine) {
      var (m, q) := ParsedMachine(ts, p).value;
      MachineNamed(ts, p);
      MachinesNamed(ts, q, net.(machines := net.machines + [m]));
    }
  }

  lemma NetNamed(ts: seq<TokenValue>)
    requires ParsedNetFile(ts).Some?
    ensures forall m :: m in ParsedNetFile(ts).value.machines ==> IsAsciiUppercase(m.name)
  {
    MachinesNamed(ts, 2, MachineNet([]));
  }

  // ---------------------------------------------------------------------------
  // Printing a machine net back to tokens

  function PrintTransitions(tr: seq<Transition>): seq<TokenValue>
  {
    if tr == [] then [] else [Ident(tr[0].character), RArrow, Number(tr[0].dest), Semi] + PrintTransitions(tr[1..])
  }

  /** `state N { initial; final; x -> M; … }`, a flag only when it is set. */
  function PrintState(s: State): seq<TokenValue>
  {
    [KwState, Number(s.id), LBrace] + (PrintFlags(s) + (PrintTransitions(s.transitions) + [RBrace]))
  }

  function PrintFlags(s: State): seq<TokenValue>
  {
    (if s.isInitial then [KwInitial, Semi] else []) + (if s.isFinal then [KwFinal, Semi] else [])
  }

  function PrintStates(ss: seq<State>): seq<TokenValue>
  {
    if ss == [] then [] else PrintState(ss[0]) + PrintStates(ss[1..])
  }

  function PrintMachine(m: Machine): seq<TokenValue>
  {
    [KwMachine, Ident(m.name), LBrace] + (PrintStates(m.states) + [RBrace])
  }

  function PrintMachines(ms: seq<Machine>): seq<TokenValue>
  {
    if ms == [] then [] else PrintMachine(ms[0]) + PrintMachines(ms[1..])
  }

  function PrintNet(net: MachineNet): seq<TokenValue>
  {
    [KwMNet, LBrace] + (PrintMachines(net.machines) + [RBrace])
  }

  /** The tokens from position `p` on start with `w`. */
  predicate At(ts: seq<TokenValue>, p: nat, w: seq<TokenValue>)
  {
    p + |w| <= |ts| && forall i :: 0 <= i < |w| ==> ts[p + i] == w[i]
  }

  lemma AtSplit(ts: seq<TokenValue>, p: nat, a: seq<TokenValue>, b: seq<TokenValue>)
    requires At(ts, p, a + b)
    ensures At(ts, p, a) && At(ts, p + |a|, b)
  {
    assert forall i :: 0 <= i < |a| ==> (a + b)[i] == a[i];
    assert forall i :: 0 <= i < |b| ==> (a + b)[|a| + i] == b[i];
  }

  /** Printed transitions and the closing brace complete a state body. */
  lemma {:induction false} TransitionsRoundTrip(ts: seq<TokenValue>, p: nat, tr: seq<Transition>, st: State)
    requires At(ts, p, PrintTransitions(tr) + [RBrace])
    ensures ParsedBody(ts, p, st) == Some((st.(transitions := st.transitions + tr), p + |PrintTransitions(tr)| + 1))
    decreases tr
  {
    if tr == [] {
      assert ts[p] == (PrintTransitions(tr) + [RBrace])[0];
      assert st.transitions + tr == st.transitions;
    } else {
      var item := [Ident(tr[0].character), RArrow, Number(tr[0].dest), Semi];
      assert PrintTransitions(tr) + [RBrace] == item + (PrintTransitions(tr[1..]) + [RBrace]);
      AtSplit(ts, p, item, PrintTransitions(tr[1..]) + [RBrace]);
      assert ts[p] == item[0] && ts[p + 1] == item[1] && ts[p + 2] == item[2] && ts[p + 3] == item[3];
      var st' := st.(transitions := st.transitions + [tr[0]]);
      TransitionsRoundTrip(ts, p + 4, tr[1..], st');
      ConcatAssoc(st.transitions, [tr[0]], tr[1..]);
      assert [tr[0]] + tr[1..] == tr;
    }
  }

  /** Parsing a printed state gives it back, and stops right after it. */
  lemma StateRoundTrip(ts: seq<TokenValue>, p: nat, s: State)
    requires At(ts, p, PrintState(s))
    ensures ParsedState(ts, p) == Some((s, p + |PrintState(s)|))
  {
    var head := [KwState, Number(s.id), LBrace];
    var body := PrintTransitions(s.transitions) + [RBrace];
    AtSplit(ts, p, head, PrintFlags(s) + body);
    AtSplit(ts, p + 3, PrintFlags(s), body);
    assert ts[p] == head[0] && ts[p + 1] == head[1] && ts[p + 2] == head[2];
    FlagsRoundTrip(ts, p + 3, s, |body|);
    var st := State(s.id, [], s.isInitial, s.isFinal);
    TransitionsRoundTrip(ts, p + 3 + |PrintFlags(s)|, s.transitions, st);
    assert st.(transitions := [] + s.transitions) == s;
  }

  /** The printed flags of `s` set them on a state with no flags yet. */
  lemma FlagsRoundTrip(ts: seq<TokenValue>, q: nat, s: State, more: nat)
    requires At(ts, q, PrintFlags(s)) && q + |PrintFlags(s)| + more <= |ts| && 0 < more
    ensures ParsedBody(ts, q, State(s.id, [], false, false))
         == ParsedBody(ts, q + |PrintFlags(s)|, State(s.id, [], s.isInitial, s.isFinal))
  {
    var ini := if s.isInitial then [KwInitial, Semi] else [];
    var fin := if s.isFinal then [KwFinal, Semi] else [];
    AtSplit(ts, q, ini, fin);
    var st1 := State(s.id, [], s.isInitial, false);
    if s.isInitial {
      assert ts[q] == ini[0] && ts[q + 1] == ini[1];
      FlagStep(ts, q, KwInitial, State(s.id, [], false, false));
    }
    if s.isFinal {
      assert ts[q + |ini|] == fin[0] && ts[q + |ini| + 1] == fin[1];
      FlagStep(ts, q + |ini|, KwFinal, st1);
    }
  }

  lemma FlagStep(ts: seq<TokenValue>, q: nat, t: TokenValue, st: State)
    requires q + 1 < |ts| && ts[q] == t && ts[q + 1] == Semi && (t == KwInitial || t == KwFinal)
    ensures ParsedBody(ts, q, st) == ParsedBody(ts, q + 2, if t == KwInitial then st.(isInitial := true) else st.(isFinal := true))
  {
  }

  /** Printed states and the closing brace complete a machine body. */
  lemma {:induction false} StatesRoundTrip(ts: seq<TokenValue>, p: nat, ss: seq<State>, m: Machine)
    requires At(ts, p, PrintStates(ss) + [RBrace])
    ensures ParsedStates(ts, p, m) == Some((m.(states := m.states + ss), p + |PrintStates(ss)| + 1))
    decreases ss
  {
    if ss == [] {
      StatesEnd(ts, p, ss, m);
    } else {
      StatesStep(ts, p, ss, m);
      StatesRoundTrip(ts, p + |PrintState(ss[0])|, ss[1..], m.(states := m.states + [ss[0]]));
      StatesJoin(ss, m);
    }
  }

  lemma StatesEnd(ts: seq<TokenValue>, p: nat, ss: seq<State>, m: Machine)
    requires ss == [] && At(ts, p, PrintStates(ss) + [RBrace])
    ensures ParsedStates(ts, p, m) == Some((m.(states := m.states + ss), p + |PrintStates(ss)| + 1))
  {
    assert ts[p] == (PrintStates(ss) + [RBrace])[0];
    assert m.states + ss == m.states;
  }

  lemma StatesJoin(ss: seq<State>, m: Machine)
    requires ss != []
    ensures m.(states := m.states + [ss[0]] + ss[1..]) == m.(states := m.states + ss)
    ensures |PrintStates(ss)| == |PrintState(ss[0])| + |PrintStates(ss[1..])|
  {
    ConcatAssoc(m.states, [ss[0]], ss[1..]);
    assert [ss[0]] + ss[1..] == ss;
  }

  /** The first printed state of a machine body is read, and the rest follows it. */
  lemma StatesStep(ts: seq<TokenValue>, p: nat, ss: seq<State>, m: Machine)
    requires ss != [] && At(ts, p, PrintStates(ss) + [RBrace])
    ensures At(ts, p + |PrintState(ss[0])|, PrintStates(ss[1..]) + [RBrace])
    ensures ParsedStates(ts, p, m) == ParsedStates(ts, p + |PrintState(ss[0])|, m.(states := m.states + [ss[0]]))
  {
    var w := PrintState(ss[0]);
    assert PrintStates(ss) + [RBrace] == w + (PrintStates(ss[1..]) + [RBrace]);
    AtSplit(ts, p, w, PrintStates(ss[1..]) + [RBrace]);
    assert ts[p] == w[0];
    StateRoundTrip(ts, p, ss[0]);
  }

  /** Parsing a printed machine with an uppercase name gives it back, and stops right after it. */
  lemma MachineRoundTrip(ts: seq<TokenValue>, p: nat, m: Machine)
    requires IsAsciiUppercase(m.name) && At(ts, p, PrintMachine(m))
    ensures ParsedMachine(ts, p) == Some((m, p + |PrintMachine(m)|))
  {
    var head := [KwMachine, Ident(m.name), LBrace];
    AtSplit(ts, p, head, PrintStates(m.states) + [RBrace]);
    assert ts[p] == head[0] && ts[p + 1] == head[1] && ts[p + 2] == head[2];
    StatesRoundTrip(ts, p + 3, m.states, Machine(m.name, []));
    assert Machine(m.name, []).(states := [] + m.states) == m;
  }

  /** Printed machines and the closing brace complete a net body. */
  lemma {:induction false} MachinesRoundTrip(ts: seq<TokenValue>, p: nat, ms: seq<Machine>, net: MachineNet)
    requires forall m :: m in ms ==> IsAsciiUppercase(m.name)
    requires At(ts, p, PrintMachines(ms) + [RBrace])
    ensures ParsedMachines(ts, p, net) == Some((net.(machines := net.machines + ms), p + |PrintMachines(ms)| + 1))
    decreases ms
  {
    if ms == [] {
      MachinesEnd(ts, p, ms, net);
    } else {
      assert ms[0] in ms;
      MachinesStep(ts, p, ms, net);
      assert forall m :: m in ms[1..] ==> m in ms;
      MachinesRoundTrip(ts, p + |PrintMachine(ms[0])|, ms[1..], net.(machines := net.machines + [ms[0]]));
      MachinesJoin(ms, net);
    }
  }

  /** Parsing a printed machine net whose machines have uppercase names gives it back. */
  lemma NetRoundTrip(ts: seq<TokenValue>, p: nat, net: MachineNet)
    requires forall m :: m in net.machines ==> IsAsciiUppercase(m.name)
    requires At(ts, p, PrintNet(net))
    ensures ParsedNet(ts, p) == Some((net, p + |PrintNet(net)|))
  {
    var head := [KwMNet, LBrace];
    AtSplit(ts, p, head, PrintMachines(net.machines) + [RBrace]);
    assert ts[p] == head[0] && ts[p + 1] == head[1];
    assert ParsedNet(ts, p) == ParsedMachines(ts, p + 2, MachineNet([]));
    MachinesRoundTrip(ts, p + 2, net.machines, MachineNet([]));
    assert MachineNet([]).(machines := [] + net.machines) == net;
  }

  lemma MachinesEnd(ts: seq<TokenValue>, p: nat, ms: seq<Machine>, net: MachineNet)
    requires ms == [] && At(ts, p, PrintMachines(ms) + [RBrace])
    ensures ParsedMachines(ts, p, net) == Some((net.(machines := net.machines + ms), p + |PrintMachines(ms)| + 1))
  {
    assert ts[p] == (PrintMachines(ms) + [RBrace])[0];
    assert net.machines + ms == net.machines;
  }

  lemma MachinesJoin(ms: seq<Machine>, net: MachineNet)
    requires ms != []
    ensures net.(machines := net.machines + [ms[0]] + ms[1..]) == net.(machines := net.machines + ms)
    ensures |PrintMachines(ms)| == |PrintMachine(ms[0])| + |PrintMachines(ms[1..])|
  {
    ConcatAssoc(net.machines, [ms[0]], ms[1..]);
    assert [ms[0]] + ms[1..] == ms;
  }

  /** The first printed machine of a net body is read, and the rest follows it. */
  lemma MachinesStep(ts: seq<TokenValue>, p: nat, ms: seq<Machine>, net: MachineNet)
    requires ms != [] && IsAsciiUppercase(ms[0].name) && At(ts, p, PrintMachines(ms) + [RBrace])
    ensures At(ts, p + |PrintMachine(ms[0])|, PrintMachines(ms[1..]) + [RBrace])
    ensures ParsedMachines(ts, p, net)
         == ParsedMachines(ts, p + |PrintMachine(ms[0])|, net.(machines := net.machines + [ms[0]]))
  {
    var w := PrintMachine(ms[0]);
    assert PrintMachines(ms) + [RBrace] == w + (PrintMachines(ms[1..]) + [RBrace]);
    AtSplit(ts, p, w, PrintMachines(ms[1..]) + [RBrace]);
    assert ts[p] == w[0];
    MachineRoundTrip(ts, p, ms[0]);
  }

  /**
   * A file holding a printed machine net, whose machines all have uppercase names,
   * parses back to that net.
   */
  lemma NetFileRoundTrip(net: MachineNet)
    requires forall m :: m in net.machines ==> IsAsciiUppercase(m.name)
    ensures ParsedNetFile(PrintNet(net) + [EndOfFile]) == Some(net)
  {
    var ts := PrintNet(net) + [EndOfFile];
    assert At(ts, 0, ts);
    AtSplit(ts, 0, PrintNet(net), [EndOfFile]);
    NetRoundTrip(ts, 0, net);
    assert ts[|PrintNet(net)|] == EndOfFile;
  }

  /** A file holding a printed machine with an uppercase name parses back to that machine. */
  lemma MachineFileRoundTrip(m: Machine)
    requires IsAsciiUppercase(m.name)
    ensures ParsedMachineFile(PrintMachine(m) + [EndOfFile]) == Some(m)
  {
    var ts := PrintMachine(m) + [EndOfFile];
    assert At(ts, 0, ts);
    AtSplit(ts, 0, PrintMachine(m), [EndOfFile]);
    MachineRoundTrip(ts, 0, m);
    assert ts[|PrintMachine(m)|] == EndOfFile;
  }
}
