/**
 * The printer and the reader agree: the text `Display` prints for a regex reads
 * back as that regex, when its literals are lowercase letters numbered 1, 2, 3, …
 * from left to right and no right operand is of the operator that encloses it
 * (the reader groups `a|b|c` and `abc` to the left, so a tree grouped to the right
 * is printed the same way as its left-grouped twin).
 */
module RegexRoundTrip {
  import opened Wrappers
  import opened Regex
  import opened RegexParser

  /** Regexes whose printed form reads back unchanged, numbering aside. */
  predicate Readable(e: Regex)
  {
    match e
    case Null => true
    case Literal(ch, _) => IsAsciiLowercase(ch)
    case Star(x) => Readable(x)
    case Plus(x) => Readable(x)
    case Concat(a, b) => Readable(a) && Readable(b) && !b.Concat?
    case Union(a, b) => Readable(a) && Readable(b) && !b.Union?
  }

  /** The literals are numbered `c + 1, c + 2, …` from left to right. */
  predicate Numbered(e: Regex, c: nat)
  {
    LitIndices(e) == Interval(c + 1, c + |LitIndices(e)| + 1)
  }

  /** The token values of the characters of a text that are not whitespace. */
  function CharValues(s: string): (vs: seq<TokenValue>)
    ensures |vs| <= |s|
  {
    if s == [] then [] else (if IsAsciiWhitespace(s[0]) then [] else [FromChar(0, s[0]).value.value]) + CharValues(s[1..])
  }

  lemma {:induction false} CharValuesAppend(a: string, b: string)
    ensures CharValues(a + b) == CharValues(a) + CharValues(b)
  {
    if a == [] {
      assert a + b == b;
    } else {
      assert (a + b)[0] == a[0];
      assert (a + b)[1..] == a[1..] + b;
      CharValuesAppend(a[1..], b);
    }
  }

  /** A printed character that is not whitespace lexes to its own token value. */
  lemma CharValuesOne(ch: char)
    requires !IsAsciiWhitespace(ch)
    ensures CharValues([ch]) == [FromChar(0, ch).value.value]
  {
    assert [ch][1..] == [];
  }

  lemma ValuesAppend(x: seq<Token>, y: seq<Token>)
    ensures Values(x + y) == Values(x) + Values(y)
  {
  }

  /** The lexer yields, value for value, the characters that are not whitespace. */
  lemma {:induction false} LexValues(s: string, p: nat)
    requires p <= |s|
    ensures Values(Lex(s, p)) == CharValues(s[p..])
    decreases |s| - p
  {
    if p < |s| {
      LexAt(s, p);
      LexValues(s, p + 1);
      assert s[p..][0] == s[p];
      assert s[p..][1..] == s[p + 1..];
      if !IsAsciiWhitespace(s[p]) {
        ValuesAppend([TokenAt(s, p)], Lex(s, p + 1));
      }
    } else {
      LexStep(s, p);
    }
  }

  /**
   * The token values of a printed regex and of a printed operand: one per operator
   * character, one literal per letter, the parentheses `DisplayChild` adds.
   */
  function Spelled(e: Regex): seq<TokenValue>
    decreases e, 1
  {
    match e
    case Null => [EpsilonTok]
    case Literal(ch, _) => [LiteralTok(ch)]
    case Star(x) => SpelledChild(e, x) + [StarTok]
    case Plus(x) => SpelledChild(e, x) + [PlusTok]
    case Concat(a, b) => SpelledChild(e, a) + SpelledChild(e, b)
    case Union(a, b) => SpelledChild(e, a) + [UnionTok] + SpelledChild(e, b)
  }

  function SpelledChild(parent: Regex, child: Regex): seq<TokenValue>
    decreases child, 2
  {
    if Precedence(parent) > Precedence(child) then [LParTok] + Spelled(child) + [RParTok] else Spelled(child)
  }

  /** The lexer reads the printed text of a readable regex as its spelling. */
  lemma {:induction false} LexDisplay(e: Regex)
    requires Readable(e)
    ensures CharValues(Display(e)) == Spelled(e)
    decreases e, 1
  {
    match e
    case Null =>
      CharValuesOne('_');
    case Literal(ch, _) =>
      CharValuesOne(ch);
    case Star(x) =>
      LexChild(e, x);
      CharValuesAppend(DisplayChild(e, x), "*");
      CharValuesOne('*');
    case Plus(x) =>
      LexChild(e, x);
      CharValuesAppend(DisplayChild(e, x), "+");
      CharValuesOne('+');
    case Concat(a, b) =>
      LexChild(e, a);
      LexChild(e, b);
      CharValuesAppend(DisplayChild(e, a), DisplayChild(e, b));
    case Union(a, b) =>
      LexChild(e, a);
      LexChild(e, b);
      CharValuesAppend(DisplayChild(e, a) + "|", DisplayChild(e, b));
      CharValuesAppend(DisplayChild(e, a), "|");
      CharValuesOne('|');
  }

  lemma {:induction false} LexChild(parent: Regex, child: Regex)
    requires Readable(child)
    ensures CharValues(DisplayChild(parent, child)) == SpelledChild(parent, child)
    decreases child, 2
  {
    LexDisplay(child);
    if Precedence(parent) > Precedence(child) {
      CharValuesAppend("(" + Display(child), ")");
      CharValuesAppend("(", Display(child));
      CharValuesOne('(');
      CharValuesOne(')');
    }
  }

  /** A printed readable regex starts with a token that starts a term. */
  lemma {:induction false} FirstStarts(e: Regex)
    requires Readable(e)
    ensures |Spelled(e)| > 0 && StartsTermValue(Spelled(e)[0])
    decreases e, 1
  {
    match e
    case Null =>
    case Literal(_, _) =>
    case Star(x) => ChildStarts(e, x);
    case Plus(x) => ChildStarts(e, x);
    case Concat(a, _) => ChildStarts(e, a);
    case Union(a, _) => ChildStarts(e, a);
  }

  lemma {:induction false} ChildStarts(parent: Regex, child: Regex)
    requires Readable(child)
    ensures |SpelledChild(parent, child)| > 0 && StartsTermValue(SpelledChild(parent, child)[0])
    decreases child, 2
  {
    FirstStarts(child);
  }

  /** `d` sits at index `i` of `ts`, token by token. */
  predicate Occurs(ts: seq<TokenValue>, i: nat, d: seq<TokenValue>)
    ensures Occurs(ts, i, d) ==> i + |d| <= |ts|
    decreases |d|
  {
    if d == [] then i <= |ts| else i < |ts| && ts[i] == d[0] && Occurs(ts, i + 1, d[1..])
  }

  lemma {:induction false} OccursSplit(ts: seq<TokenValue>, i: nat, a: seq<TokenValue>, b: seq<TokenValue>)
    requires Occurs(ts, i, a + b)
    ensures Occurs(ts, i, a) && Occurs(ts, i + |a|, b)
    decreases |a|
  {
    if a == [] {
      assert a + b == b;
    } else {
      assert (a + b)[0] == a[0];
      assert (a + b)[1..] == a[1..] + b;
      OccursSplit(ts, i + 1, a[1..], b);
    }
  }

  lemma OccursFirst(ts: seq<TokenValue>, i: nat, d: seq<TokenValue>)
    requires Occurs(ts, i, d) && |d| > 0
    ensures i < |ts| && ts[i] == d[0]
  {
  }

  /** Every suffix of a sequence sits where it starts. */
  lemma {:induction false} OccursSuffix(ts: seq<TokenValue>, i: nat)
    requires i <= |ts|
    ensures Occurs(ts, i, ts[i..])
    decreases |ts| - i
  {
    if i < |ts| {
      OccursSuffix(ts, i + 1);
      assert ts[i..][1..] == ts[i + 1..];
    }
  }

  /** Consecutive numbering of two operands side by side splits into each one's. */
  lemma NumberedParts(a: Regex, b: Regex, c: nat)
    requires LitIndices(a) + LitIndices(b) == Interval(c + 1, c + |LitIndices(a)| + |LitIndices(b)| + 1)
    ensures Numbered(a, c) && Numbered(b, c + |LitIndices(a)|)
  {
    var na, nb := |LitIndices(a)|, |LitIndices(b)|;
    IntervalAppend(c + 1, c + na + 1, c + na + nb + 1);
    var x, y := Interval(c + 1, c + na + 1), Interval(c + na + 1, c + na + nb + 1);
    assert LitIndices(a) == (x + y)[..na];
    assert LitIndices(b) == (x + y)[na..];
  }

  /** The postfix loop stops on a token that is neither `*` nor `+`. */
  lemma StopPostfix(ts: seq<TokenValue>, lhs: Regex, j: nat, c: nat)
    requires j <= |ts| && NoPostfixAt(ts, j)
    ensures ReadPostfix(ts, lhs, j, c) == Reading(lhs, j, c)
  {
  }

  /** The concatenation loop stops on a token that can neither be `.` nor start a term. */
  lemma StopConcat(ts: seq<TokenValue>, lhs: Regex, j: nat, c: nat)
    requires j <= |ts| && !ConcatAt(ts, j) && NoPostfixAt(ts, j)
    ensures ReadConcatRest(ts, lhs, j, c) == Some(Reading(lhs, j, c))
  {
  }

  /** The union loop stops on a token other than `|`. */
  lemma StopUnion(ts: seq<TokenValue>, lhs: Regex, j: nat, c: nat)
    requires j <= |ts| && !At(ts, j, UnionTok) && !ConcatAt(ts, j) && NoPostfixAt(ts, j)
    ensures ReadUnionRest(ts, lhs, j, c) == Some(Reading(lhs, j, c))
  {
  }

  /** A concatenation starts with a star and goes on from there. */
  lemma ConcatFirst(ts: seq<TokenValue>, i: nat, c: nat, x: Reading)
    requires i <= |ts| && ReadStar(ts, i, c) == Some(x)
    ensures ReadConcat(ts, i, c) == ReadConcatRest(ts, x.tree, x.at, x.counter)
  {
  }

  /** A union starts with a concatenation and goes on from there. */
  lemma UnionFirst(ts: seq<TokenValue>, i: nat, c: nat, x: Reading)
    requires i <= |ts| && ReadConcat(ts, i, c) == Some(x)
    ensures ReadUnion(ts, i, c) == ReadUnionRest(ts, x.tree, x.at, x.counter)
  {
  }

  /** A star whose postfix loop stops at once starts the concatenation. */
  lemma ConcatAfterStar(a: Regex, ts: seq<TokenValue>, i: nat, j: nat, c: nat, n: nat)
    requires i <= j <= |ts| && NoPostfixAt(ts, j) && ReadStar(ts, i, c) == Some(ReadPostfix(ts, a, j, n))
    ensures ReadConcat(ts, i, c) == ReadConcatRest(ts, a, j, n)
  {
    StopPostfix(ts, a, j, n);
    ConcatFirst(ts, i, c, Reading(a, j, n));
  }

  /** A group is the union after the opening bracket, when `close` follows it. */
  lemma GroupNext(ts: seq<TokenValue>, i: nat, c: nat, close: TokenValue, x: Reading)
    requires i < |ts| && ReadUnion(ts, i + 1, c) == Some(x) && At(ts, x.at, close)
    ensures ReadGroup(ts, i, c, close) == Some(Reading(x.tree, x.at + 1, x.counter))
  {
  }

  /** The union loop, on a `|`, takes one concatenation. */
  lemma UnionNext(ts: seq<TokenValue>, lhs: Regex, j: nat, c: nat, x: Reading)
    requires At(ts, j, UnionTok) && ReadConcat(ts, j + 1, c) == Some(x)
    ensures ReadUnionRest(ts, lhs, j, c) == ReadUnionRest(ts, Union(lhs, x.tree), x.at, x.counter)
  {
  }

  /** A leaf reads as itself, taking the next number if it is a literal. */
  lemma LeafReads(e: Regex, ts: seq<TokenValue>, i: nat, c: nat)
    requires (e.Null? || (e.Literal? && IsAsciiLowercase(e.c))) && Occurs(ts, i, Spelled(e)) && Numbered(e, c)
    ensures ReadTerm(ts, i, c) == Some(Reading(e, i + 1, c + |LitIndices(e)|))
  {
    if e.Null? {
      assert Spelled(e) == [EpsilonTok];
      OccursFirst(ts, i, Spelled(e));
    } else {
      assert Spelled(e) == [LiteralTok(e.c)];
      OccursFirst(ts, i, Spelled(e));
      assert Interval(c + 1, c + 2) == [c + 1];
    }
  }

  /**
   * A readable regex printed as the operand of a `*` (in parentheses unless it is
   * a leaf or a postfix) reads as a star whose postfix loop stands after it with
   * that regex read.
   */
  lemma {:induction false} StarReads(e: Regex, ts: seq<TokenValue>, i: nat, c: nat)
    requires Readable(e) && Occurs(ts, i, SpelledChild(Star(e), e)) && Numbered(e, c)
    ensures ReadStar(ts, i, c) == Some(ReadPostfix(ts, e, i + |SpelledChild(Star(e), e)|, c + |LitIndices(e)|))
    decreases e, if e.Union? || e.Concat? then 7 else 1
  {
    var d := SpelledChild(Star(e), e);
    if e.Null? || e.Literal? {
      assert d == Spelled(e);
      LeafReads(e, ts, i, c);
      StarFirst(ts, i, c, Reading(e, i + 1, c + |LitIndices(e)|));
    } else if e.Star? || e.Plus? {
      PostfixOperandReads(e, ts, i, c);
    } else {
      assert d == [LParTok] + Spelled(e) + [RParTok];
      GroupReads(e, ts, i, c);
      StarFirst(ts, i, c, Reading(e, i + |d|, c + |LitIndices(e)|));
    }
  }

  /** A printed `*` or `+` extends the postfix loop of its operand by one. */
  lemma {:induction false} PostfixOperandReads(e: Regex, ts: seq<TokenValue>, i: nat, c: nat)
    requires (e.Star? || e.Plus?) && Readable(e) && Occurs(ts, i, SpelledChild(Star(e), e)) && Numbered(e, c)
    ensures ReadStar(ts, i, c) == Some(ReadPostfix(ts, e, i + |SpelledChild(Star(e), e)|, c + |LitIndices(e)|))
    decreases e, 0
  {
    var x := e.inner;
    var op := if e.Star? then StarTok else PlusTok;
    var dx := SpelledChild(Star(x), x);
    assert SpelledChild(e, x) == dx;
    assert SpelledChild(Star(e), e) == dx + [op];
    OccursSplit(ts, i, dx, [op]);
    OccursFirst(ts, i + |dx|, [op]);
    StarReads(x, ts, i, c);
    assert ReadPostfix(ts, x, i + |dx|, c + |LitIndices(x)|) == ReadPostfix(ts, e, i + |dx| + 1, c + |LitIndices(x)|);
  }

  /** A star is a term and the postfix loop after it. */
  lemma StarFirst(ts: seq<TokenValue>, i: nat, c: nat, x: Reading)
    requires i <= |ts| && ReadTerm(ts, i, c) == Some(x)
    ensures ReadStar(ts, i, c) == Some(ReadPostfix(ts, x.tree, x.at, x.counter))
  {
  }

  lemma BracketsSplit(ts: seq<TokenValue>, i: nat, open: TokenValue, d: seq<TokenValue>, close: TokenValue)
    requires Occurs(ts, i, [open] + d + [close])
    ensures At(ts, i, open) && Occurs(ts, i + 1, d) && At(ts, i + 1 + |d|, close)
  {
    OccursSplit(ts, i, [open] + d, [close]);
    OccursSplit(ts, i, [open], d);
  }

  /** A readable regex in parentheses reads as a term: the regex itself. */
  lemma {:induction false} GroupReads(e: Regex, ts: seq<TokenValue>, i: nat, c: nat)
    requires Readable(e) && Occurs(ts, i, [LParTok] + Spelled(e) + [RParTok]) && Numbered(e, c)
    ensures ReadTerm(ts, i, c) == Some(Reading(e, i + |Spelled(e)| + 2, c + |LitIndices(e)|))
    decreases e, 6
  {
    BracketsSplit(ts, i, LParTok, Spelled(e), RParTok);
    GroupCloses(e, ts, i, c, RParTok);
  }

  /** A readable regex between an opening bracket and `close` reads as that regex. */
  lemma {:induction false} GroupCloses(e: Regex, ts: seq<TokenValue>, i: nat, c: nat, close: TokenValue)
    requires close == RParTok || close == RSquareTok
    requires Readable(e) && Numbered(e, c)
    requires Occurs(ts, i + 1, Spelled(e)) && At(ts, i + 1 + |Spelled(e)|, close)
    ensures ReadGroup(ts, i, c, close) == Some(Reading(e, i + |Spelled(e)| + 2, c + |LitIndices(e)|))
    decreases e, 5
  {
    var j := i + 1 + |Spelled(e)|;
    UnionReads(e, ts, i + 1, c);
    StopUnion(ts, e, j, c + |LitIndices(e)|);
    GroupNext(ts, i, c, close, Reading(e, j, c + |LitIndices(e)|));
  }

  /** A readable regex in square brackets reads as a term: the regex or the empty word. */
  lemma {:induction false} OptionReads(e: Regex, ts: seq<TokenValue>, i: nat, c: nat)
    requires Readable(e) && Occurs(ts, i, [LSquareTok] + Spelled(e) + [RSquareTok]) && Numbered(e, c)
    ensures ReadTerm(ts, i, c) == Some(Reading(Union(e, Null), i + |Spelled(e)| + 2, c + |LitIndices(e)|))
  {
    BracketsSplit(ts, i, LSquareTok, Spelled(e), RSquareTok);
    GroupCloses(e, ts, i, c, RSquareTok);
  }

  /** The concatenation loop, on a term, takes one star: the operand read before the next `*` or `+`. */
  lemma ConcatNext(ts: seq<TokenValue>, lhs: Regex, b: Regex, j: nat, k: nat, c: nat, n: nat)
    requires TermAt(ts, j) && k <= |ts| && NoPostfixAt(ts, k) && ReadStar(ts, j, c) == Some(ReadPostfix(ts, b, k, n))
    ensures ReadConcatRest(ts, lhs, j, c) == ReadConcatRest(ts, Concat(lhs, b), k, n)
  {
  }

  /** A right operand of a concatenation that is not one is printed as it would be under a `*`. */
  lemma RightOperandSpelled(e: Regex)
    requires e.Concat? && !e.rhs.Concat?
    ensures SpelledChild(e, e.rhs) == SpelledChild(Star(e.rhs), e.rhs)
  {
  }

  /**
   * After `lhs`, a readable operand printed as under a `*`, ending at `k` and followed
   * by neither `*` nor `+`, is joined on to `lhs`.
   */
  lemma {:induction false} ConcatStepReads(lhs: Regex, b: Regex, ts: seq<TokenValue>, j: nat, k: nat, c: nat)
    requires Readable(b) && Numbered(b, c) && Occurs(ts, j, SpelledChild(Star(b), b)) && k == j + |SpelledChild(Star(b), b)|
    requires NoPostfixAt(ts, j) && NoPostfixAt(ts, k)
    ensures ReadConcatRest(ts, lhs, j, c) == ReadConcatRest(ts, Concat(lhs, b), k, c + |LitIndices(b)|)
    decreases b, 8
  {
    ChildStarts(Star(b), b);
    OccursFirst(ts, j, SpelledChild(Star(b), b));
    StarReads(b, ts, j, c);
    ConcatNext(ts, lhs, b, j, k, c, c + |LitIndices(b)|);
  }

  /**
   * A printed readable regex that is not a union, followed by something other than
   * `*` or `+`, reads as a concatenation whose loop stands after it with that regex read.
   */
  lemma {:induction false} ConcatReads(e: Regex, ts: seq<TokenValue>, i: nat, c: nat)
    requires Readable(e) && !e.Union? && Occurs(ts, i, Spelled(e)) && Numbered(e, c)
    requires NoPostfixAt(ts, i + |Spelled(e)|)
    ensures ReadConcat(ts, i, c) == ReadConcatRest(ts, e, i + |Spelled(e)|, c + |LitIndices(e)|)
    decreases e, 3
  {
    if e.Concat? {
      ConcatPairReads(e, ts, i, c);
    } else {
      assert SpelledChild(Star(e), e) == Spelled(e);
      StarReads(e, ts, i, c);
      StopPostfix(ts, e, i + |Spelled(e)|, c + |LitIndices(e)|);
      ConcatFirst(ts, i, c, Reading(e, i + |Spelled(e)|, c + |LitIndices(e)|));
    }
  }

  /** A printed readable concatenation reads as its left operand, then its right one joined on. */
  lemma {:induction false} ConcatPairReads(e: Regex, ts: seq<TokenValue>, i: nat, c: nat)
    requires e.Concat? && Readable(e) && Occurs(ts, i, Spelled(e)) && Numbered(e, c)
    requires NoPostfixAt(ts, i + |Spelled(e)|)
    ensures ReadConcat(ts, i, c) == ReadConcatRest(ts, e, i + |Spelled(e)|, c + |LitIndices(e)|)
    decreases e, 2
  {
    var a, b := e.lhs, e.rhs;
    var da, db := SpelledChild(e, a), SpelledChild(e, b);
    assert Spelled(e) == da + db;
    assert |LitIndices(e)| == |LitIndices(a)| + |LitIndices(b)|;
    OccursSplit(ts, i, da, db);
    NumberedParts(a, b, c);
    ChildStarts(e, b);
    OccursFirst(ts, i + |da|, db);
    if a.Union? {
      LeftGroupReads(e, ts, i, c);
    } else {
      assert da == Spelled(a);
      ConcatReads(a, ts, i, c);
    }
    RightOperandSpelled(e);
    assert Readable(b) && Numbered(b, c + |LitIndices(a)|);
    assert Occurs(ts, i + |da|, SpelledChild(Star(b), b));
    assert i + |Spelled(e)| == i + |da| + |SpelledChild(Star(b), b)|;
    assert NoPostfixAt(ts, i + |da|);
    ConcatStepReads(a, b, ts, i + |da|, i + |Spelled(e)|, c + |LitIndices(a)|);
    assert Concat(a, b) == e;
  }

  /** A union as the left operand of a concatenation is read in parentheses, as a star. */
  lemma {:induction false} LeftGroupReads(e: Regex, ts: seq<TokenValue>, i: nat, c: nat)
    requires e.Concat? && e.lhs.Union? && Readable(e.lhs) && Numbered(e.lhs, c) && Occurs(ts, i, SpelledChild(e, e.lhs))
    requires NoPostfixAt(ts, i + |SpelledChild(e, e.lhs)|)
    ensures ReadConcat(ts, i, c) == ReadConcatRest(ts, e.lhs, i + |SpelledChild(e, e.lhs)|, c + |LitIndices(e.lhs)|)
    decreases e, 0
  {
    var a := e.lhs;
    assert SpelledChild(e, a) == SpelledChild(Star(a), a);
    StarReads(a, ts, i, c);
    ConcatAfterStar(a, ts, i, i + |SpelledChild(Star(a), a)|, c, c + |LitIndices(a)|);
  }

  /**
   * After `lhs`, a `|` and a readable operand that is not a union, followed by
   * something that can neither continue a concatenation nor be a postfix, is joined
   * on to `lhs`.
   */
  lemma {:induction false} UnionStepReads(lhs: Regex, b: Regex, ts: seq<TokenValue>, j: nat, k: nat, c: nat)
    requires Readable(b) && !b.Union? && Numbered(b, c) && Occurs(ts, j, [UnionTok] + Spelled(b)) && k == j + 1 + |Spelled(b)|
    requires !ConcatAt(ts, k) && NoPostfixAt(ts, k)
    ensures ReadUnionRest(ts, lhs, j, c) == ReadUnionRest(ts, Union(lhs, b), k, c + |LitIndices(b)|)
    decreases b, 8
  {
    OccursSplit(ts, j, [UnionTok], Spelled(b));
    OccursFirst(ts, j, [UnionTok]);
    ConcatReads(b, ts, j + 1, c);
    StopConcat(ts, b, k, c + |LitIndices(b)|);
    UnionNext(ts, lhs, j, c, Reading(b, k, c + |LitIndices(b)|));
  }

  /** A printed readable union reads as its left operand, then its right one joined on. */
  lemma {:induction false} UnionPairReads(e: Regex, ts: seq<TokenValue>, i: nat, c: nat)
    requires e.Union? && Readable(e) && Occurs(ts, i, Spelled(e)) && Numbered(e, c)
    requires !ConcatAt(ts, i + |Spelled(e)|) && NoPostfixAt(ts, i + |Spelled(e)|)
    ensures ReadUnion(ts, i, c) == ReadUnionRest(ts, e, i + |Spelled(e)|, c + |LitIndices(e)|)
    decreases e, 3
  {
    var a, b := e.lhs, e.rhs;
    var i1 := i + |Spelled(a)|;
    assert Spelled(e) == Spelled(a) + ([UnionTok] + Spelled(b));
    assert |LitIndices(e)| == |LitIndices(a)| + |LitIndices(b)|;
    OccursSplit(ts, i, Spelled(a), [UnionTok] + Spelled(b));
    OccursFirst(ts, i1, [UnionTok] + Spelled(b));
    NumberedParts(a, b, c);
    UnionReads(a, ts, i, c);
    assert Readable(b) && !b.Union? && Numbered(b, c + |LitIndices(a)|);
    assert i1 + 1 + |Spelled(b)| == i + |Spelled(e)|;
    UnionStepReads(a, b, ts, i1, i + |Spelled(e)|, c + |LitIndices(a)|);
    assert Union(a, b) == e;
  }

  /**
   * A printed readable regex, followed by something that can neither continue a
   * concatenation nor be a postfix, reads as a union whose loop stands after it with
   * that regex read.
   */
  lemma {:induction false} UnionReads(e: Regex, ts: seq<TokenValue>, i: nat, c: nat)
    requires Readable(e) && Occurs(ts, i, Spelled(e)) && Numbered(e, c)
    requires !ConcatAt(ts, i + |Spelled(e)|) && NoPostfixAt(ts, i + |Spelled(e)|)
    ensures ReadUnion(ts, i, c) == ReadUnionRest(ts, e, i + |Spelled(e)|, c + |LitIndices(e)|)
    decreases e, 4
  {
    if e.Union? {
      UnionPairReads(e, ts, i, c);
    } else {
      ConcatReads(e, ts, i, c);
      StopConcat(ts, e, i + |Spelled(e)|, c + |LitIndices(e)|);
      UnionFirst(ts, i, c, Reading(e, i + |Spelled(e)|, c + |LitIndices(e)|));
    }
  }

  /** A text reads as its token values do. */
  lemma ReadsAs(s: string, ts: seq<TokenValue>)
    requires CharValues(s) == ts
    ensures ReadRegex(s) == TreeOf(ReadRegexFrom(ts, 0, 0))
  {
    LexValues(s, 0);
    assert s[0..] == s;
  }

  /** A bracketed printed regex lexes to the brackets around its spelling. */
  lemma LexBracketed(e: Regex, open: char, close: char)
    requires Readable(e) && !IsAsciiWhitespace(open) && !IsAsciiWhitespace(close)
    ensures CharValues([open] + Display(e) + [close]) == [FromChar(0, open).value.value] + Spelled(e) + [FromChar(0, close).value.value]
  {
    CharValuesAppend([open] + Display(e), [close]);
    CharValuesAppend([open], Display(e));
    CharValuesOne(open);
    CharValuesOne(close);
    LexDisplay(e);
  }

  /** A sequence sits at its own start. */
  lemma OccursWhole(ts: seq<TokenValue>)
    ensures Occurs(ts, 0, ts)
  {
    OccursSuffix(ts, 0);
    assert ts[0..] == ts;
  }

  /** A text whose tokens all make up one union reads as that union. */
  lemma ReadsWhole(s: string, ts: seq<TokenValue>, x: Reading)
    requires CharValues(s) == ts && 0 < |ts| && ReadUnion(ts, 0, 0) == Some(x) && x.at == |ts|
    ensures ReadRegex(s) == Some(x.tree)
  {
    ReadsAs(s, ts);
  }

  /** Tokens spelling a readable regex, and nothing else, read as a union: that regex. */
  lemma SpelledReads(e: Regex, ts: seq<TokenValue>)
    requires Readable(e) && Numbered(e, 0) && Occurs(ts, 0, Spelled(e)) && |ts| == |Spelled(e)|
    ensures ReadUnion(ts, 0, 0) == Some(Reading(e, |ts|, |LitIndices(e)|))
  {
    FirstStarts(e);
    UnionReads(e, ts, 0, 0);
    StopUnion(ts, e, |ts|, |LitIndices(e)|);
  }

  /** The reader reads back what the printer prints. */
  lemma ReadDisplay(e: Regex)
    requires Readable(e) && Numbered(e, 0)
    ensures ReadRegex(Display(e)) == Some(e)
  {
    LexDisplay(e);
    OccursWhole(Spelled(e));
    SpelledReads(e, Spelled(e));
    FirstStarts(e);
    ReadsWhole(Display(e), Spelled(e), Reading(e, |Spelled(e)|, |LitIndices(e)|));
  }

  /** A term that takes all the tokens is a whole union. */
  lemma TermIsWhole(ts: seq<TokenValue>, x: Reading)
    requires 0 < |ts| && ReadTerm(ts, 0, 0) == Some(x) && x.at == |ts|
    ensures ReadUnion(ts, 0, 0) == Some(x)
  {
    StopPostfix(ts, x.tree, x.at, x.counter);
    ConcatFirst(ts, 0, 0, x);
    StopConcat(ts, x.tree, x.at, x.counter);
    UnionFirst(ts, 0, 0, x);
    StopUnion(ts, x.tree, x.at, x.counter);
  }

  /** Parentheses around a printed regex read as the regex itself. */
  lemma ReadGrouped(e: Regex)
    requires Readable(e) && Numbered(e, 0)
    ensures ReadRegex("(" + Display(e) + ")") == Some(e)
  {
    var ts := [LParTok] + Spelled(e) + [RParTok];
    var x := Reading(e, |ts|, |LitIndices(e)|);
    LexBracketed(e, '(', ')');
    OccursWhole(ts);
    GroupReads(e, ts, 0, 0);
    TermIsWhole(ts, x);
    ReadsWhole("(" + Display(e) + ")", ts, x);
  }

  /** Square brackets around a printed regex read as the regex or the empty word. */
  lemma ReadOptional(e: Regex)
    requires Readable(e) && Numbered(e, 0)
    ensures ReadRegex("[" + Display(e) + "]") == Some(Union(e, Null))
  {
    var ts := [LSquareTok] + Spelled(e) + [RSquareTok];
    var x := Reading(Union(e, Null), |ts|, |LitIndices(e)|);
    LexBracketed(e, '[', ']');
    OccursWhole(ts);
    OptionReads(e, ts, 0, 0);
    TermIsWhole(ts, x);
    ReadsWhole("[" + Display(e) + "]", ts, x);
  }

  /** `|` binds loosest, then adjacency, then `*`: `ab|c*` is `(ab)|(c*)`. */
  lemma ReadPrecedence()
    ensures ReadRegex("ab|c*") == Some(Union(Concat(Literal('a', 1), Literal('b', 2)), Star(Literal('c', 3))))
  {
    var e := Union(Concat(Literal('a', 1), Literal('b', 2)), Star(Literal('c', 3)));
    assert Display(e) == "ab|c*";
    assert Interval(1, 4) == [1, 2, 3] by {
      assert Interval(3, 4) == [3];
      assert Interval(2, 4) == [2, 3];
    }
    ReadDisplay(e);
  }

  /** Parentheses override the binding: `(a|b)c+` is `(a|b)` followed by `c+`. */
  lemma ReadParenthesised()
    ensures ReadRegex("(a|b)c+") == Some(Concat(Union(Literal('a', 1), Literal('b', 2)), Plus(Literal('c', 3))))
  {
    var e := Concat(Union(Literal('a', 1), Literal('b', 2)), Plus(Literal('c', 3)));
    assert Display(e) == "(a|b)c+";
    assert Interval(1, 4) == [1, 2, 3] by {
      assert Interval(3, 4) == [3];
      assert Interval(2, 4) == [2, 3];
    }
    ReadDisplay(e);
  }

  /** Concatenation and union group to the left: `abc` is `(ab)c`. */
  lemma ReadLeftNested()
    ensures ReadRegex("abc") == Some(Concat(Concat(Literal('a', 1), Literal('b', 2)), Literal('c', 3)))
  {
    var e := Concat(Concat(Literal('a', 1), Literal('b', 2)), Literal('c', 3));
    assert Display(e) == "abc";
    assert Interval(1, 4) == [1, 2, 3] by {
      assert Interval(3, 4) == [3];
      assert Interval(2, 4) == [2, 3];
    }
    ReadDisplay(e);
  }
}
