/**
 * The regex reader: a lexer over the characters of the text that skips ASCII
 * whitespace and tags every token with its byte offset, and a recursive-descent
 * parser with one token of lookahead that numbers the literals as it meets them.
 *
 *   union  ::= concat ('|' concat)*
 *   concat ::= star (('.')? star)*        -- adjacency before a literal, '_', '(' or '['
 *   star   ::= term ('*' | '+')*
 *   term   ::= '(' union ')' | '[' union ']' | '_' | lowercase letter
 */
module RegexParser {
  import opened Wrappers
  import opened Regex

  /** `RegexTokenValue`. */
  datatype TokenValue =
    | InvalidTok
    | EpsilonTok
    | LiteralTok(c: char)
    | UnionTok
    | ConcatTok
    | StarTok
    | PlusTok
    | LParTok
    | RParTok
    | LSquareTok
    | RSquareTok

  /** `RegexToken`: a value and the byte offset it was read at. */
  datatype Token = Token(location: nat, value: TokenValue)

  predicate IsAsciiLowercase(c: char)
  {
    'a' <= c <= 'z'
  }

  /** Space, horizontal tab, line feed, form feed and carriage return (not the vertical tab). */
  predicate IsAsciiWhitespace(c: char)
  {
    c == ' ' || c == '\t' || c == '\n' || c == '\U{000C}' || c == '\r'
  }

  /** The characters with a token of their own. */
  predicate IsOperatorSymbol(c: char)
  {
    c == '_' || c == '|' || c == '.' || c == '*' || c == '+' || c == '(' || c == ')' || c == '[' || c == ']'
  }

  /** `from_char`: classify one character. */
  function FromChar(location: nat, c: char): (t: Option<Token>)
    ensures t.Some? && t.value.location == location
    ensures t.value.value.LiteralTok? <==> IsAsciiLowercase(c)
    ensures t.value.value.LiteralTok? ==> t.value.value.c == c
    ensures t.value.value == InvalidTok <==> !IsAsciiLowercase(c) && !IsOperatorSymbol(c)
    ensures t.value.value == EpsilonTok <==> c == '_'
    ensures t.value.value == LParTok <==> c == '('
    ensures t.value.value == LSquareTok <==> c == '['
    ensures t.value.value == RParTok <==> c == ')'
    ensures t.value.value == RSquareTok <==> c == ']'
    ensures t.value.value == UnionTok <==> c == '|'
    ensures t.value.value == ConcatTok <==> c == '.'
    ensures t.value.value == StarTok <==> c == '*'
    ensures t.value.value == PlusTok <==> c == '+'
  {
    var value :=
      if IsAsciiLowercase(c) then LiteralTok(c)
      else if c == '_' then EpsilonTok
      else if c == '|' then UnionTok
      else if c == '.' then ConcatTok
      else if c == '*' then StarTok
      else if c == '+' then PlusTok
      else if c == '(' then LParTok
      else if c == ')' then RParTok
      else if c == '[' then LSquareTok
      else if c == ']' then RSquareTok
      else InvalidTok;
    Some(Token(location, value))
  }

  /** Bytes of a character in UTF-8 (section 3 of RFC 3629). */
  function Utf8Len(c: char): (n: nat)
    ensures 1 <= n <= 4
  {
    if c as int < 0x80 then 1 else if c as int < 0x800 then 2 else if c as int < 0x10000 then 3 else 4
  }

  /** The byte offset of the `i`-th character: what `char_indices` reports for it. */
  function ByteOffset(s: string, i: nat): nat
    requires i <= |s|
  {
    if i == 0 then 0 else ByteOffset(s, i - 1) + Utf8Len(s[i - 1])
  }

  /** Characters are counted by their width: only ASCII text has byte offsets equal to positions. */
  lemma {:induction false} AsciiOffsets(s: string, i: nat)
    requires i <= |s|
    requires forall k :: 0 <= k < i ==> s[k] as int < 0x80
    ensures ByteOffset(s, i) == i
  {
    if i > 0 {
      AsciiOffsets(s, i - 1);
    }
  }

  /** The first position at or after `p` that does not hold ASCII whitespace. */
  function SkipWs(s: string, p: nat): (k: nat)
    requires p <= |s|
    ensures p <= k <= |s|
    ensures forall j :: p <= j < k ==> IsAsciiWhitespace(s[j])
    ensures k < |s| ==> !IsAsciiWhitespace(s[k])
    decreases |s| - p
  {
    if p == |s| || !IsAsciiWhitespace(s[p]) then p else SkipWs(s, p + 1)
  }

  /** The token the lexer yields from position `p`. */
  function NextToken(s: string, p: nat): (t: Option<Token>)
    requires p <= |s|
    ensures t.None? <==> forall j :: p <= j < |s| ==> IsAsciiWhitespace(s[j])
  {
    var k := SkipWs(s, p);
    if k < |s| then FromChar(ByteOffset(s, k), s[k]) else None
  }

  /** Where the lexer stands after yielding that token. */
  function NextPos(s: string, p: nat): (q: nat)
    requires p <= |s|
    ensures p <= q <= |s|
    ensures NextToken(s, p).None? ==> q == |s|
    ensures NextToken(s, p).Some? ==> p < q && !IsAsciiWhitespace(s[q - 1]) && forall j :: p <= j < q - 1 ==> IsAsciiWhitespace(s[j])
  {
    var k := SkipWs(s, p);
    if k < |s| then k + 1 else |s|
  }

  /** The lexer's token sequence from position `p`. */
  function Lex(s: string, p: nat): (r: seq<Token>)
    requires p <= |s|
    ensures |r| <= |s| - p
    ensures r == [] <==> forall j :: p <= j < |s| ==> IsAsciiWhitespace(s[j])
    decreases |s| - p
  {
    var k := SkipWs(s, p);
    if k < |s| then [TokenAt(s, k)] + Lex(s, k + 1) else []
  }

  /** The token read from the character at position `k`. */
  function TokenAt(s: string, k: nat): Token
    requires k < |s|
  {
    FromChar(ByteOffset(s, k), s[k]).value
  }

  /** The tokens read from the positions `ks`, in that order. */
  function TokensAt(s: string, ks: seq<nat>): (r: seq<Token>)
    requires forall t :: 0 <= t < |ks| ==> ks[t] < |s|
    ensures |r| == |ks|
  {
    if ks == [] then [] else [TokenAt(s, ks[0])] + TokensAt(s, ks[1..])
  }

  /** One token per character that is not whitespace, in order, tagged with that character's byte offset. */
  lemma {:induction false} LexTokens(s: string, p: nat)
    requires p <= |s|
    ensures Lex(s, p) == TokensAt(s, NonWs(s, p))
    decreases |s| - p
  {
    var k := SkipWs(s, p);
    NonWsSkips(s, p);
    if k < |s| {
      LexTokens(s, k + 1);
      var ks := NonWs(s, p);
      assert ks[1..] == NonWs(s, k + 1);
    }
  }

  /** The positions at or after `p` that hold something other than whitespace, in order. */
  function NonWs(s: string, p: nat): (r: seq<nat>)
    requires p <= |s|
    ensures forall t :: 0 <= t < |r| ==> p <= r[t] < |s| && !IsAsciiWhitespace(s[r[t]])
    decreases |s| - p
  {
    if p == |s| then [] else (if IsAsciiWhitespace(s[p]) then [] else [p]) + NonWs(s, p + 1)
  }

  lemma {:induction false} NonWsSkips(s: string, p: nat)
    requires p <= |s|
    ensures var k := SkipWs(s, p);
      NonWs(s, p) == if k < |s| then [k] + NonWs(s, k + 1) else []
    decreases |s| - p
  {
    if p < |s| && IsAsciiWhitespace(s[p]) {
      NonWsSkips(s, p + 1);
    }
  }

  /** A token that can start a term. */
  predicate StartsTerm(t: Option<Token>)
  {
    t.Some? && (t.value.value.LiteralTok? || t.value.value == EpsilonTok || t.value.value == LParTok || t.value.value == LSquareTok)
  }

  predicate Is(t: Option<Token>, v: TokenValue)
  {
    t.Some? && t.value.value == v
  }

  /** The token values of a token sequence. */
  function Values(ts: seq<Token>): (vs: seq<TokenValue>)
    ensures |vs| == |ts| && forall k :: 0 <= k < |ts| ==> vs[k] == ts[k].value
  {
    seq(|ts|, k requires 0 <= k < |ts| => ts[k].value)
  }

  /** The lexer's sequence restarts after each token it yields. */
  lemma LexStep(s: string, p: nat)
    requires p <= |s|
    ensures NextPos(s, p) <= |s|
    ensures NextToken(s, p).None? ==> Lex(s, p) == []
    ensures NextToken(s, p).Some? ==> Lex(s, p) == [NextToken(s, p).value] + Lex(s, NextPos(s, p))
  {
  }

  /** How many characters before position `p` are not whitespace: the tokens the lexer has yielded by then. */
  function NonWsCount(s: string, p: nat): (n: nat)
    requires p <= |s|
    ensures n <= p
  {
    if p == 0 then 0 else NonWsCount(s, p - 1) + (if IsAsciiWhitespace(s[p - 1]) then 0 else 1)
  }

  /** One character further: whitespace yields nothing, anything else one token. */
  lemma LexAt(s: string, q: nat)
    requires q < |s|
    ensures Lex(s, q) == if IsAsciiWhitespace(s[q]) then Lex(s, q + 1) else [TokenAt(s, q)] + Lex(s, q + 1)
  {
  }

  /** The lexer's sequence from any position is what is left of the whole sequence once the tokens before it are dropped. */
  lemma {:induction false} LexSuffix(s: string, p: nat)
    requires p <= |s|
    ensures NonWsCount(s, p) + |Lex(s, p)| == |Lex(s, 0)|
    ensures Lex(s, 0)[NonWsCount(s, p)..] == Lex(s, p)
  {
    if p > 0 {
      var n := NonWsCount(s, p - 1);
      LexSuffix(s, p - 1);
      LexAt(s, p - 1);
      if IsAsciiWhitespace(s[p - 1]) {
        assert NonWsCount(s, p) == n && Lex(s, p - 1) == Lex(s, p);
      } else {
        assert NonWsCount(s, p) == n + 1 && Lex(s, p - 1) == [TokenAt(s, p - 1)] + Lex(s, p);
        DropOne(Lex(s, 0), n, TokenAt(s, p - 1), Lex(s, p));
      }
    }
  }

  lemma DropOne(ts: seq<Token>, n: nat, t: Token, rest: seq<Token>)
    requires n <= |ts| && ts[n..] == [t] + rest
    ensures n < |ts| && ts[n] == t && ts[n + 1..] == rest
  {
    assert ts[n + 1..] == ts[n..][1..];
  }

  /** The token the lexer yields from `p` is the next one of the whole sequence after those before `p`. */
  lemma NextTokenIndex(s: string, p: nat)
    requires p <= |s|
    ensures var ts, n := Lex(s, 0), NonWsCount(s, p);
      NextPos(s, p) <= |s| && (NextToken(s, p).Some? <==> n < |ts|)
      && (n < |ts| ==> NextToken(s, p) == Some(ts[n]) && NonWsCount(s, NextPos(s, p)) == n + 1)
  {
    LexStep(s, p);
    LexSuffix(s, p);
    LexSuffix(s, NextPos(s, p));
    var ts, n := Lex(s, 0), NonWsCount(s, p);
    if n < |ts| {
      assert ts[n] == ts[n..][0];
    }
  }

  predicate StartsTermValue(v: TokenValue)
  {
    v.LiteralTok? || v == EpsilonTok || v == LParTok || v == LSquareTok
  }

  /** The token at index `i` has value `v`. */
  predicate At(ts: seq<TokenValue>, i: nat, v: TokenValue)
  {
    i < |ts| && ts[i] == v
  }

  /** The token at index `i` can start a term. */
  predicate TermAt(ts: seq<TokenValue>, i: nat)
  {
    i < |ts| && StartsTermValue(ts[i])
  }

  /** The token at index `i` makes the concatenation loop read another operand. */
  predicate ConcatAt(ts: seq<TokenValue>, i: nat)
  {
    At(ts, i, ConcatTok) || TermAt(ts, i)
  }

  /** The token at index `i` is neither `*` nor `+`. */
  predicate NoPostfixAt(ts: seq<TokenValue>, i: nat)
  {
    !At(ts, i, StarTok) && !At(ts, i, PlusTok)
  }

  /**
   * What one grammar rule reads: the tree, the index of the next lookahead token,
   * and the literal counter afterwards.
   */
  datatype Reading = Reading(tree: Regex, at: nat, counter: nat)

  function TreeOf(o: Option<Reading>): Option<Regex>
  {
    if o.Some? then Some(o.value.tree) else None
  }

  /*
   * The grammar as functions of the token values `ts`: `i` is the index of the
   * lookahead token (none when `i == |ts|`) and `c` the literal counter. A result
   * of None is a syntax error.
   */

  /** `term`: a bracketed union, `_`, or a letter numbered with the next counter value. */
  function ReadTerm(ts: seq<TokenValue>, i: nat, c: nat): (r: Option<Reading>)
    requires i <= |ts|
    ensures r.Some? ==> i < r.value.at <= |ts| && c <= r.value.counter
    ensures !TermAt(ts, i) ==> r.None?
    decreases |ts| - i, 1
  {
    if At(ts, i, LParTok) then ReadGroup(ts, i, c, RParTok)
    else if At(ts, i, LSquareTok) then
      match ReadGroup(ts, i, c, RSquareTok)
      case None => None
      case Some(g) => Some(Reading(Union(g.tree, Null), g.at, g.counter))
    else if At(ts, i, EpsilonTok) then Some(Reading(Null, i + 1, c))
    else if i < |ts| && ts[i].LiteralTok? then Some(Reading(Literal(ts[i].c, c + 1), i + 1, c + 1))
    else None
  }

  /** An opening bracket at `i`, a union, then `close`; the union is what is read. */
  function ReadGroup(ts: seq<TokenValue>, i: nat, c: nat, close: TokenValue): (r: Option<Reading>)
    requires i < |ts|
    ensures r.Some? ==> i < r.value.at <= |ts| && c <= r.value.counter
    decreases |ts| - i, 0
  {
    match ReadUnion(ts, i + 1, c)
    case None => None
    case Some(u) => if At(ts, u.at, close) then Some(Reading(u.tree, u.at + 1, u.counter)) else None
  }

  /** The `*` and `+` after a term, each wrapping what came before. */
  function ReadPostfix(ts: seq<TokenValue>, lhs: Regex, i: nat, c: nat): (r: Reading)
    requires i <= |ts|
    ensures i <= r.at <= |ts| && r.counter == c
    ensures NoPostfixAt(ts, r.at)
    decreases |ts| - i
  {
    if At(ts, i, StarTok) then ReadPostfix(ts, Star(lhs), i + 1, c)
    else if At(ts, i, PlusTok) then ReadPostfix(ts, Plus(lhs), i + 1, c)
    else Reading(lhs, i, c)
  }

  /** A group fails with its union, and otherwise needs `close` right after it. */
  lemma GroupStep(ts: seq<TokenValue>, i: nat, c: nat, close: TokenValue)
    requires i < |ts|
    ensures ReadUnion(ts, i + 1, c).None? ==> ReadGroup(ts, i, c, close).None?
    ensures ReadUnion(ts, i + 1, c).Some? && !At(ts, ReadUnion(ts, i + 1, c).value.at, close) ==> ReadGroup(ts, i, c, close).None?
    ensures ReadUnion(ts, i + 1, c).Some? && At(ts, ReadUnion(ts, i + 1, c).value.at, close) ==>
      var u := ReadUnion(ts, i + 1, c).value;
      ReadGroup(ts, i, c, close) == Some(Reading(u.tree, u.at + 1, u.counter))
  {
  }

  /** One turn of the postfix loop: a `*` or `+` wraps `lhs`, anything else stops it. */
  lemma PostfixStep(ts: seq<TokenValue>, lhs: Regex, i: nat, c: nat)
    requires i <= |ts|
    ensures At(ts, i, StarTok) ==> ReadPostfix(ts, lhs, i, c) == ReadPostfix(ts, Star(lhs), i + 1, c)
    ensures At(ts, i, PlusTok) ==> ReadPostfix(ts, lhs, i, c) == ReadPostfix(ts, Plus(lhs), i + 1, c)
    ensures NoPostfixAt(ts, i) ==> ReadPostfix(ts, lhs, i, c) == Reading(lhs, i, c)
  {
  }

  /** `star`. */
  function ReadStar(ts: seq<TokenValue>, i: nat, c: nat): (r: Option<Reading>)
    requires i <= |ts|
    ensures r.Some? ==> i < r.value.at <= |ts| && c <= r.value.counter
    ensures r.Some? ==> NoPostfixAt(ts, r.value.at)
    ensures !TermAt(ts, i) ==> r.None?
    decreases |ts| - i, 2
  {
    match ReadTerm(ts, i, c)
    case None => None
    case Some(b) => Some(ReadPostfix(ts, b.tree, b.at, b.counter))
  }

  /** One step of `concat`: an optional `.`, then a star joined on to `lhs`. */
  function ReadConcatStep(ts: seq<TokenValue>, lhs: Regex, i: nat, c: nat): (r: Option<Reading>)
    requires ConcatAt(ts, i)
    ensures r.Some? ==> i < r.value.at <= |ts| && c <= r.value.counter
    ensures r.Some? ==> NoPostfixAt(ts, r.value.at)
    decreases |ts| - i, 3
  {
    var i1 := if At(ts, i, ConcatTok) then i + 1 else i;
    match ReadStar(ts, i1, c)
    case None => None
    case Some(x) => Some(Reading(Concat(lhs, x.tree), x.at, x.counter))
  }

  /** The rest of `concat` once `lhs` has been read. */
  function ReadConcatRest(ts: seq<TokenValue>, lhs: Regex, i: nat, c: nat): (r: Option<Reading>)
    requires i <= |ts| && NoPostfixAt(ts, i)
    ensures r.Some? ==> i <= r.value.at <= |ts| && c <= r.value.counter
    ensures r.Some? ==> !ConcatAt(ts, r.value.at) && NoPostfixAt(ts, r.value.at)
    decreases |ts| - i, 4
  {
    if ConcatAt(ts, i) then
      match ReadConcatStep(ts, lhs, i, c)
      case None => None
      case Some(x) => ReadConcatRest(ts, x.tree, x.at, x.counter)
    else Some(Reading(lhs, i, c))
  }

  /** `concat`. */
  function ReadConcat(ts: seq<TokenValue>, i: nat, c: nat): (r: Option<Reading>)
    requires i <= |ts|
    ensures r.Some? ==> i < r.value.at <= |ts| && c <= r.value.counter
    ensures r.Some? ==> !ConcatAt(ts, r.value.at) && NoPostfixAt(ts, r.value.at)
    ensures !TermAt(ts, i) ==> r.None?
    decreases |ts| - i, 5
  {
    match ReadStar(ts, i, c)
    case None => None
    case Some(x) => ReadConcatRest(ts, x.tree, x.at, x.counter)
  }

  /** One step of `union`: the `|`, then a concatenation joined on to `lhs`. */
  function ReadUnionStep(ts: seq<TokenValue>, lhs: Regex, i: nat, c: nat): (r: Option<Reading>)
    requires At(ts, i, UnionTok)
    ensures r.Some? ==> i < r.value.at <= |ts| && c <= r.value.counter
    ensures r.Some? ==> !ConcatAt(ts, r.value.at) && NoPostfixAt(ts, r.value.at)
    decreases |ts| - i, 6
  {
    match ReadConcat(ts, i + 1, c)
    case None => None
    case Some(x) => Some(Reading(Union(lhs, x.tree), x.at, x.counter))
  }

  /** The rest of `union` once `lhs` has been read. */
  function ReadUnionRest(ts: seq<TokenValue>, lhs: Regex, i: nat, c: nat): (r: Option<Reading>)
    requires i <= |ts| && !ConcatAt(ts, i) && NoPostfixAt(ts, i)
    ensures r.Some? ==> i <= r.value.at <= |ts| && c <= r.value.counter
    ensures r.Some? ==> !At(ts, r.value.at, UnionTok) && !ConcatAt(ts, r.value.at) && NoPostfixAt(ts, r.value.at)
    decreases |ts| - i, 7
  {
    if At(ts, i, UnionTok) then
      match ReadUnionStep(ts, lhs, i, c)
      case None => None
      case Some(x) => ReadUnionRest(ts, x.tree, x.at, x.counter)
    else Some(Reading(lhs, i, c))
  }

  /** `union`. */
  function ReadUnion(ts: seq<TokenValue>, i: nat, c: nat): (r: Option<Reading>)
    requires i <= |ts|
    ensures r.Some? ==> i < r.value.at <= |ts| && c <= r.value.counter
    ensures r.Some? ==> !At(ts, r.value.at, UnionTok) && !ConcatAt(ts, r.value.at) && NoPostfixAt(ts, r.value.at)
    ensures !TermAt(ts, i) ==> r.None?
    decreases |ts| - i, 8
  {
    match ReadConcat(ts, i, c)
    case None => None
    case Some(x) => ReadUnionRest(ts, x.tree, x.at, x.counter)
  }

  /** `parse_regex` from lookahead index `i`: no token at all is the empty word; otherwise a union that uses up the tokens. */
  function ReadRegexFrom(ts: seq<TokenValue>, i: nat, c: nat): (r: Option<Reading>)
    requires i <= |ts|
    ensures r.Some? ==> r.value.at == |ts| && c <= r.value.counter
    ensures i < |ts| && !TermAt(ts, i) ==> r.None?
  {
    if i == |ts| then Some(Reading(Null, i, c))
    else match ReadUnion(ts, i, c)
      case None => None
      case Some(u) => if u.at == |ts| then Some(u) else None
  }

  /** The regex a whole text reads as, literals numbered from 1. */
  function ReadRegex(s: string): (r: Option<Regex>)
    ensures (forall k :: 0 <= k < |s| ==> IsAsciiWhitespace(s[k])) ==> r == Some(Null)
    ensures r.Some? ==> LitIndices(r.value) == Interval(1, |LitIndices(r.value)| + 1)
    ensures NextToken(s, 0).Some? && !StartsTerm(NextToken(s, 0)) ==> r == None
  {
    LexStep(s, 0);
    RegexFromNumbers(Values(Lex(s, 0)), 0, 0);
    TreeOf(ReadRegexFrom(Values(Lex(s, 0)), 0, 0))
  }

  /*
   * Every rule numbers the literals it reads consecutively from the counter it
   * starts with; the rest of a loop appends its literals' numbers to those of `lhs`.
   */

  /** The numbers a reading gives: those of `lhs`, then `c + 1` up to its final counter. */
  predicate NumbersAfter(r: Option<Reading>, lhs: seq<nat>, c: nat)
  {
    r.Some? && c <= r.value.counter ==> LitIndices(r.value.tree) == lhs + Interval(c + 1, r.value.counter + 1)
  }

  lemma {:induction false} TermNumbers(ts: seq<TokenValue>, i: nat, c: nat)
    requires i <= |ts|
    ensures NumbersAfter(ReadTerm(ts, i, c), [], c)
    decreases |ts| - i, 1
  {
    if At(ts, i, LParTok) {
      GroupNumbers(ts, i, c, RParTok);
    } else if At(ts, i, LSquareTok) {
      GroupNumbers(ts, i, c, RSquareTok);
      var g := ReadGroup(ts, i, c, RSquareTok);
      if g.Some? {
        assert LitIndices(Union(g.value.tree, Null)) == LitIndices(g.value.tree) + [];
      }
    }
  }

  lemma {:induction false} GroupNumbers(ts: seq<TokenValue>, i: nat, c: nat, close: TokenValue)
    requires i < |ts|
    ensures NumbersAfter(ReadGroup(ts, i, c, close), [], c)
    decreases |ts| - i, 0
  {
    UnionNumbers(ts, i + 1, c);
  }

  lemma {:induction false} PostfixNumbers(ts: seq<TokenValue>, lhs: Regex, i: nat, c: nat)
    requires i <= |ts|
    ensures LitIndices(ReadPostfix(ts, lhs, i, c).tree) == LitIndices(lhs)
    decreases |ts| - i
  {
    if At(ts, i, StarTok) {
      PostfixNumbers(ts, Star(lhs), i + 1, c);
    } else if At(ts, i, PlusTok) {
      PostfixNumbers(ts, Plus(lhs), i + 1, c);
    }
  }

  lemma {:induction false} StarNumbers(ts: seq<TokenValue>, i: nat, c: nat)
    requires i <= |ts|
    ensures NumbersAfter(ReadStar(ts, i, c), [], c)
    decreases |ts| - i, 2
  {
    TermNumbers(ts, i, c);
    var b := ReadTerm(ts, i, c);
    if b.Some? {
      PostfixNumbers(ts, b.value.tree, b.value.at, b.value.counter);
    }
  }

  lemma {:induction false} ConcatStepNumbers(ts: seq<TokenValue>, lhs: Regex, i: nat, c: nat)
    requires ConcatAt(ts, i)
    ensures NumbersAfter(ReadConcatStep(ts, lhs, i, c), LitIndices(lhs), c)
    decreases |ts| - i, 3
  {
    StarNumbers(ts, if At(ts, i, ConcatTok) then i + 1 else i, c);
  }

  lemma {:induction false} ConcatRestNumbers(ts: seq<TokenValue>, lhs: Regex, i: nat, c: nat)
    requires i <= |ts| && NoPostfixAt(ts, i)
    ensures NumbersAfter(ReadConcatRest(ts, lhs, i, c), LitIndices(lhs), c)
    decreases |ts| - i, 4
  {
    if ConcatAt(ts, i) {
      ConcatStepNumbers(ts, lhs, i, c);
      var x := ReadConcatStep(ts, lhs, i, c);
      if x.Some? {
        ConcatRestNumbers(ts, x.value.tree, x.value.at, x.value.counter);
        var r := ReadConcatRest(ts, x.value.tree, x.value.at, x.value.counter);
        if r.Some? {
          IntervalAppend(c + 1, x.value.counter + 1, r.value.counter + 1);
        }
      }
    }
  }

  lemma {:induction false} ConcatNumbers(ts: seq<TokenValue>, i: nat, c: nat)
    requires i <= |ts|
    ensures NumbersAfter(ReadConcat(ts, i, c), [], c)
    decreases |ts| - i, 5
  {
    StarNumbers(ts, i, c);
    var x := ReadStar(ts, i, c);
    if x.Some? {
      ConcatRestNumbers(ts, x.value.tree, x.value.at, x.value.counter);
      var r := ReadConcatRest(ts, x.value.tree, x.value.at, x.value.counter);
      if r.Some? {
        IntervalAppend(c + 1, x.value.counter + 1, r.value.counter + 1);
      }
    }
  }

  lemma {:induction false} UnionStepNumbers(ts: seq<TokenValue>, lhs: Regex, i: nat, c: nat)
    requires At(ts, i, UnionTok)
    ensures NumbersAfter(ReadUnionStep(ts, lhs, i, c), LitIndices(lhs), c)
    decreases |ts| - i, 6
  {
    ConcatNumbers(ts, i + 1, c);
  }

  lemma {:induction false} UnionRestNumbers(ts: seq<TokenValue>, lhs: Regex, i: nat, c: nat)
    requires i <= |ts| && !ConcatAt(ts, i) && NoPostfixAt(ts, i)
    ensures NumbersAfter(ReadUnionRest(ts, lhs, i, c), LitIndices(lhs), c)
    decreases |ts| - i, 7
  {
    if At(ts, i, UnionTok) {
      UnionStepNumbers(ts, lhs, i, c);
      var x := ReadUnionStep(ts, lhs, i, c);
      if x.Some? {
        UnionRestNumbers(ts, x.value.tree, x.value.at, x.value.counter);
        var r := ReadUnionRest(ts, x.value.tree, x.value.at, x.value.counter);
        if r.Some? {
          IntervalAppend(c + 1, x.value.counter + 1, r.value.counter + 1);
        }
      }
    }
  }

  lemma {:induction false} UnionNumbers(ts: seq<TokenValue>, i: nat, c: nat)
    requires i <= |ts|
    ensures NumbersAfter(ReadUnion(ts, i, c), [], c)
    decreases |ts| - i, 8
  {
    ConcatNumbers(ts, i, c);
    var x := ReadConcat(ts, i, c);
    if x.Some? {
      UnionRestNumbers(ts, x.value.tree, x.value.at, x.value.counter);
      var r := ReadUnionRest(ts, x.value.tree, x.value.at, x.value.counter);
      if r.Some? {
        IntervalAppend(c + 1, x.value.counter + 1, r.value.counter + 1);
      }
    }
  }

  /** A whole reading numbers its literals `c + 1, c + 2, …`. */
  lemma RegexFromNumbers(ts: seq<TokenValue>, i: nat, c: nat)
    requires i <= |ts|
    ensures NumbersAfter(ReadRegexFrom(ts, i, c), [], c)
  {
    if i < |ts| {
      UnionNumbers(ts, i, c);
    }
  }

  /** `RegexParser`: the text, the lexer position, one token of lookahead and the literal counter. */
  class Parser {
    const input: string
    var pos: nat
    var offset: nat
    var lookahead: Option<Token>
    var litCounter: nat
    /** The index of the lookahead in the lexer's token sequence. */
    ghost var at: nat

    /** The token values the lexer yields for the whole text. */
    ghost function Tokens(): seq<TokenValue>
    {
      Values(Lex(input, 0))
    }

    /**
     * The lexer has read `pos` characters (`offset` bytes); the lookahead is token
     * `at` of the whole sequence and the lexer yields the tokens after it.
     */
    ghost predicate Valid()
      reads this
    {
      pos <= |input| && offset == ByteOffset(input, pos) && (lookahead.None? ==> pos == |input|)
      && var ts := Lex(input, 0);
      at <= |ts| && (lookahead.Some? <==> at < |ts|)
      && (at < |ts| ==> lookahead == Some(ts[at]) && NonWsCount(input, pos) == at + 1)
    }

    /** The lookahead is the token at index `at`, and there is none past the last one. */
    lemma LookaheadAt()
      requires Valid()
      ensures lookahead.Some? <==> at < |Tokens()|
      ensures lookahead.Some? ==> lookahead.value.value == Tokens()[at]
    {
    }

    /** Characters not yet read, plus one for a pending lookahead. */
    function Remaining(): nat
      reads this
    {
      (if pos <= |input| then |input| - pos else 0) + (if lookahead.Some? then 1 else 0)
    }

    /** A method's result and final state are what the grammar function read. */
    ghost predicate Agrees(r: Option<Regex>, o: Option<Reading>)
      reads this
    {
      r == TreeOf(o) && (o.Some? ==> at == o.value.at && litCounter == o.value.counter)
    }

    /** `new`: the lexer reads the first token. */
    constructor (s: string)
      ensures Valid() && input == s && litCounter == 0 && at == 0
      ensures lookahead == NextToken(s, 0) && pos == NextPos(s, 0)
    {
      input := s;
      pos := 0;
      offset := 0;
      litCounter := 0;
      at := 0;
      new;
      NextTokenIndex(input, 0);
      lookahead := LexNext();
    }

    /** `RegexLexer::next`: skip whitespace, then classify the next character. */
    method LexNext() returns (t: Option<Token>)
      requires pos <= |input| && offset == ByteOffset(input, pos)
      modifies this`pos, this`offset
      ensures t == NextToken(input, old(pos)) && pos == NextPos(input, old(pos))
      ensures offset == ByteOffset(input, pos)
      ensures t.None? ==> pos == |input|
      ensures t.Some? ==> old(pos) < pos
    {
      ghost var p0 := pos;
      while pos < |input|
        invariant p0 <= pos <= |input| && offset == ByteOffset(input, pos)
        invariant SkipWs(input, p0) == SkipWs(input, pos)
        decreases |input| - pos
      {
        var c := input[pos];
        var i := offset;
        pos := pos + 1;
        offset := offset + Utf8Len(c);
        if !IsAsciiWhitespace(c) {
          t := FromChar(i, c);
          return;
        }
      }
      t := None;
    }

    /** `advance`: hand back the lookahead and read the next token; nothing happens at the end. */
    method Advance() returns (current: Option<Token>)
      requires Valid()
      modifies this`pos, this`offset, this`lookahead, this`at
      ensures Valid()
      ensures current == old(lookahead)
      ensures old(lookahead).None? ==> lookahead.None? && pos == old(pos) && at == old(at)
      ensures old(lookahead).Some? ==> at == old(at) + 1
      ensures old(lookahead).Some? ==> lookahead == NextToken(input, old(pos)) && pos == NextPos(input, old(pos))
      ensures old(lookahead).Some? ==> Remaining() < old(Remaining())
    {
      if lookahead.Some? {
        current := lookahead;
        NextTokenIndex(input, pos);
        at := at + 1;
        lookahead := LexNext();
      } else {
        current := None;
      }
    }

    /** `parse_term`. */
    method ParseTerm() returns (r: Option<Regex>)
      requires Valid()
      modifies this
      decreases Remaining(), 0, 1
      ensures Valid() && Remaining() <= old(Remaining())
      ensures Agrees(r, ReadTerm(Tokens(), old(at), old(litCounter)))
      ensures r.Some? ==> Remaining() < old(Remaining())
    {
      LookaheadAt();
      if Is(lookahead, LParTok) {
        r := ParseGroup(RParTok);
      } else if Is(lookahead, LSquareTok) {
        var lhs := ParseGroup(RSquareTok);
        if lhs.None? {
          return None;
        }
        r := Some(Union(lhs.value, Null));
      } else if Is(lookahead, EpsilonTok) {
        var _ := Advance();
        r := Some(Null);
      } else if lookahead.Some? && lookahead.value.value.LiteralTok? {
        var c := lookahead.value.value.c;
        var _ := Advance();
        litCounter := litCounter + 1;
        r := Some(Literal(c, litCounter));
      } else {
        r := None;
      }
    }

    /** The bracketed branches of `parse_term`: the opening bracket, a union, then `close`. */
    method ParseGroup(close: TokenValue) returns (r: Option<Regex>)
      requires Valid() && lookahead.Some?
      modifies this
      decreases Remaining(), 0, 0
      ensures Valid() && Remaining() <= old(Remaining())
      ensures Agrees(r, ReadGroup(Tokens(), old(at), old(litCounter), close))
      ensures r.Some? ==> Remaining() < old(Remaining())
    {
      ghost var ts, i0, c0 := Tokens(), at, litCounter;
      var _ := Advance();
      var res := ParseUnion();
      ghost var u := ReadUnion(ts, i0 + 1, c0);
      GroupStep(ts, i0, c0, close);
      if res.None? {
        return None;
      }
      LookaheadAt();
      if Is(lookahead, close) {
        var _ := Advance();
        r := res;
      } else {
        r := None;
      }
    }

    /** `parse_star`: a term, then any number of `*` and `+`, each wrapping what came before. */
    method ParseStar() returns (r: Option<Regex>)
      requires Valid()
      modifies this
      decreases Remaining(), 1, 0
      ensures Valid() && Remaining() <= old(Remaining())
      ensures Agrees(r, ReadStar(Tokens(), old(at), old(litCounter)))
      ensures r.Some? ==> Remaining() < old(Remaining())
    {
      var lhs := ParseTerm();
      if lhs.None? {
        return None;
      }
      var e := lhs.value;
      ghost var q0, c0, rem0 := old(at), old(litCounter), old(Remaining());
      while true
        invariant Valid() && Remaining() < rem0
        invariant ReadStar(Tokens(), q0, c0) == Some(ReadPostfix(Tokens(), e, at, litCounter))
        decreases Remaining()
      {
        LookaheadAt();
        PostfixStep(Tokens(), e, at, litCounter);
        if Is(lookahead, StarTok) {
          var _ := Advance();
          e := Star(e);
        } else if Is(lookahead, PlusTok) {
          var _ := Advance();
          e := Plus(e);
        } else {
          return Some(e);
        }
      }
    }

    /** `parse_concat`: stars joined by `.` or by adjacency, grouped to the left. */
    method ParseConcat() returns (r: Option<Regex>)
      requires Valid()
      modifies this
      decreases Remaining(), 2, 1
      ensures Valid() && Remaining() <= old(Remaining())
      ensures Agrees(r, ReadConcat(Tokens(), old(at), old(litCounter)))
      ensures r.Some? ==> Remaining() < old(Remaining())
    {
      var lhs := ParseStar();
      if lhs.None? {
        return None;
      }
      var e := lhs.value;
      ghost var q0, c0, rem0 := old(at), old(litCounter), old(Remaining());
      while true
        invariant Valid() && Remaining() < rem0
        invariant !Is(lookahead, StarTok) && !Is(lookahead, PlusTok)
        invariant ReadConcat(Tokens(), q0, c0) == ReadConcatRest(Tokens(), e, at, litCounter)
        decreases Remaining()
      {
        LookaheadAt();
        if Is(lookahead, ConcatTok) || StartsTerm(lookahead) {
          var next := ParseConcatOperand(e);
          if next.None? {
            return None;
          }
          e := next.value;
        } else {
          return Some(e);
        }
      }
    }

    /** One step of `parse_concat`: an optional `.`, then a star joined on to `lhs`. */
    method ParseConcatOperand(lhs: Regex) returns (r: Option<Regex>)
      requires Valid() && (Is(lookahead, ConcatTok) || StartsTerm(lookahead))
      modifies this
      decreases Remaining(), 2, 0
      ensures Valid() && Remaining() <= old(Remaining())
      ensures Agrees(r, ReadConcatStep(Tokens(), lhs, old(at), old(litCounter)))
      ensures r.Some? ==> Remaining() < old(Remaining())
    {
      if Is(lookahead, ConcatTok) {
        var _ := Advance();
      }
      var rhs := ParseStar();
      if rhs.None? {
        return None;
      }
      r := Some(Concat(lhs, rhs.value));
    }

    /** `parse_union`: concatenations separated by `|`, grouped to the left. */
    method ParseUnion() returns (r: Option<Regex>)
      requires Valid()
      modifies this
      decreases Remaining(), 3, 1
      ensures Valid() && Remaining() <= old(Remaining())
      ensures Agrees(r, ReadUnion(Tokens(), old(at), old(litCounter)))
      ensures r.Some? ==> Remaining() < old(Remaining())
    {
      var lhs := ParseConcat();
      if lhs.None? {
        return None;
      }
      var e := lhs.value;
      ghost var q0, c0, rem0 := old(at), old(litCounter), old(Remaining());
      while true
        invariant Valid() && Remaining() < rem0
        invariant !Is(lookahead, ConcatTok) && !StartsTerm(lookahead) && !Is(lookahead, StarTok) && !Is(lookahead, PlusTok)
        invariant ReadUnion(Tokens(), q0, c0) == ReadUnionRest(Tokens(), e, at, litCounter)
        decreases Remaining()
      {
        LookaheadAt();
        if Is(lookahead, UnionTok) {
          var next := ParseUnionOperand(e);
          if next.None? {
            return None;
          }
          e := next.value;
        } else {
          return Some(e);
        }
      }
    }

    /** One step of `parse_union`: the `|`, then a concatenation joined on to `lhs`. */
    method ParseUnionOperand(lhs: Regex) returns (r: Option<Regex>)
      requires Valid() && Is(lookahead, UnionTok)
      modifies this
      decreases Remaining(), 3, 0
      ensures Valid() && Remaining() <= old(Remaining())
      ensures Agrees(r, ReadUnionStep(Tokens(), lhs, old(at), old(litCounter)))
      ensures r.Some? ==> Remaining() < old(Remaining())
    {
      var _ := Advance();
      var rhs := ParseConcat();
      if rhs.None? {
        return None;
      }
      r := Some(Union(lhs, rhs.value));
    }

    /** `parse_regex`: nothing at all is the empty word; otherwise a union that uses up the text. */
    method ParseRegex() returns (r: Option<Regex>)
      requires Valid()
      modifies this
      ensures Valid()
      ensures Agrees(r, ReadRegexFrom(Tokens(), old(at), old(litCounter)))
      ensures r.Some? ==> lookahead.None? && pos == |input|
    {
      if lookahead.None? {
        return Some(Null);
      }
      var res := ParseUnion();
      if res.None? {
        return None;
      }
      if lookahead.None? {
        r := res;
      } else {
        r := None;
      }
    }
  }

  /** Reading a whole text: the grammar's reading, with literals numbered 1, 2, 3, … from left to right. */
  method Parse(s: string) returns (r: Option<Regex>)
    ensures r == ReadRegex(s)
    ensures (forall k :: 0 <= k < |s| ==> IsAsciiWhitespace(s[k])) ==> r == Some(Null)
    ensures r.Some? ==> LitIndices(r.value) == Interval(1, |LitIndices(r.value)| + 1)
    ensures NextToken(s, 0).Some? && !StartsTerm(NextToken(s, 0)) ==> r == None
  {
    var p := new Parser(s);
    r := p.ParseRegex();
  }
}
