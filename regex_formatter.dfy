/**
 * The token-driven regex formatter: `fmt` walks the tree and hands each printed
 * symbol, tagged with its class, to `write`, which decides from the previous class
 * whether a space goes first. Unnumbered it prints what `Display` prints; numbered it
 * prints every literal with its index and separates the symbols by spaces.
 */
module RegexFormatter {
  import opened Regex

  /** `RegexFmtCharClass`: what a printed symbol is. */
  datatype CharClass =
    | Ini
    | LiteralChar(c: char, index: nat)
    | OpenGroup(c: char)
    | ClosedGroup(c: char)
    | UnOp(c: char)
    | BinOp(c: char)

  predicate IsDigit(c: char)
  {
    '0' <= c <= '9'
  }

  function DigitChar(d: nat): (c: char)
    requires d < 10
    ensures IsDigit(c) && c as int - '0' as int == d
  {
    ('0' as int + d) as char
  }

  /** The decimal notation of a natural number, most significant digit first. */
  function Decimal(n: nat): (s: string)
    ensures s != []
    ensures forall k :: 0 <= k < |s| ==> IsDigit(s[k])
  {
    if n < 10 then [DigitChar(n)] else Decimal(n / 10) + [DigitChar(n % 10)]
  }

  /** The value of a text of decimal digits. */
  function DecimalValue(s: string): nat
  {
    if s == [] then 0
    else 10 * DecimalValue(s[..|s| - 1]) + (if IsDigit(s[|s| - 1]) then s[|s| - 1] as int - '0' as int else 0)
  }

  /** A literal's index is printed so that it reads back as the same number. */
  lemma {:induction false} DecimalRoundTrip(n: nat)
    ensures DecimalValue(Decimal(n)) == n
  {
    var s := Decimal(n);
    if n < 10 {
      assert s[..|s| - 1] == [];
    } else {
      DecimalRoundTrip(n / 10);
      assert s[..|s| - 1] == Decimal(n / 10);
    }
  }

  /** Whether `write` puts a space before `next`. */
  function Space(numbered: bool, prev: CharClass, next: CharClass): bool
  {
    if !numbered then false
    else if prev.Ini? then false
    else match next
      case Ini => true
      case LiteralChar(_, _) => true
      case OpenGroup(_) => !prev.OpenGroup?
      case ClosedGroup(_) => !prev.ClosedGroup?
      case UnOp(_) => false
      case BinOp(_) => true
  }

  /** The symbol itself; a numbered literal is followed by its index. */
  function Text(numbered: bool, next: CharClass): string
  {
    match next
    case Ini => ""
    case LiteralChar(c, i) => if numbered then [c] + Decimal(i) else [c]
    case OpenGroup(c) => [c]
    case ClosedGroup(c) => [c]
    case UnOp(c) => [c]
    case BinOp(c) => [c]
  }

  /** What one `write` appends to the buffer. */
  function Emit(numbered: bool, prev: CharClass, next: CharClass): (s: string)
  {
    (if Space(numbered, prev, next) then " " else "") + Text(numbered, next)
  }

  /** What a run of `write`s appends, starting after `prev`. */
  function Render(numbered: bool, prev: CharClass, toks: seq<CharClass>): (s: string)
    decreases |toks|
  {
    if toks == [] then "" else Emit(numbered, prev, toks[0]) + Render(numbered, toks[0], toks[1..])
  }

  /** The class remembered after a run of `write`s. */
  function Last(prev: CharClass, toks: seq<CharClass>): CharClass
  {
    if toks == [] then prev else toks[|toks| - 1]
  }

  lemma {:induction false} RenderAppend(numbered: bool, prev: CharClass, a: seq<CharClass>, b: seq<CharClass>)
    ensures Render(numbered, prev, a + b) == Render(numbered, prev, a) + Render(numbered, Last(prev, a), b)
    decreases |a|
  {
    if a == [] {
      assert a + b == b;
    } else {
      var ab := a + b;
      assert ab[0] == a[0] && ab[1..] == a[1..] + b;
      RenderAppend(numbered, a[0], a[1..], b);
      assert Last(a[0], a[1..]) == Last(prev, a);
      var e := Emit(numbered, prev, a[0]);
      calc {
        Render(numbered, prev, ab);
        e + Render(numbered, a[0], a[1..] + b);
        e + (Render(numbered, a[0], a[1..]) + Render(numbered, Last(prev, a), b));
        (e + Render(numbered, a[0], a[1..])) + Render(numbered, Last(prev, a), b);
      }
    }
  }

  /** The symbols `fmt` writes for a regex, in order. */
  function Tokens(re: Regex): (t: seq<CharClass>)
    ensures |t| > 0 && (t[0].LiteralChar? || t[0].OpenGroup?)
    ensures t[|t| - 1].LiteralChar? || t[|t| - 1].ClosedGroup? || t[|t| - 1].UnOp?
    decreases re, 1
  {
    match re
    case Null => [LiteralChar('_', 0)]
    case Literal(c, i) => [LiteralChar(c, i)]
    case Star(e) => ChildTokens(re, e) + [UnOp('*')]
    case Plus(e) => ChildTokens(re, e) + [UnOp('+')]
    case Concat(a, b) => ChildTokens(re, a) + ChildTokens(re, b)
    case Union(a, b) => ChildTokens(re, a) + [BinOp('|')] + ChildTokens(re, b)
  }

  /** The symbols `fmt_child` writes: the operand, in a group when the parent binds tighter. */
  function ChildTokens(mom: Regex, daughter: Regex): (t: seq<CharClass>)
    ensures |t| > 0 && (t[0].LiteralChar? || t[0].OpenGroup?)
    ensures t[|t| - 1].LiteralChar? || t[|t| - 1].ClosedGroup? || t[|t| - 1].UnOp?
    decreases daughter, 2
  {
    if Precedence(mom) > Precedence(daughter) then [OpenGroup('(')] + Tokens(daughter) + [ClosedGroup(')')]
    else Tokens(daughter)
  }

  /** The numbered rendering (`to_string_numbered`). */
  function Numbered(re: Regex): string
  {
    Render(true, Ini, Tokens(re))
  }

  /** `RegexFormatter`: the mode, the class of the last symbol and the text so far. */
  class Formatter {
    const numbered: bool
    var prev: CharClass
    var buf: string

    constructor (numbered: bool)
      ensures this.numbered == numbered && prev == Ini && buf == ""
    {
      this.numbered := numbered;
      prev := Ini;
      buf := "";
    }

    /** `write`: an optional space, then the symbol. */
    method Write(next: CharClass)
      modifies this
      ensures buf == old(buf) + Emit(numbered, old(prev), next) && prev == next
    {
      var space: bool;
      if !numbered {
        space := false;
      } else if prev.Ini? {
        space := false;
      } else {
        match next {
          case Ini => space := true;
          case LiteralChar(_, _) => space := true;
          case OpenGroup(_) => space := !prev.OpenGroup?;
          case ClosedGroup(_) => space := !prev.ClosedGroup?;
          case UnOp(_) => space := false;
          case BinOp(_) => space := true;
        }
      }
      if space {
        buf := buf + " ";
      }
      match next {
        case Ini =>
        case LiteralChar(c, i) =>
          if !numbered {
            buf := buf + [c];
          } else {
            buf := buf + ([c] + Decimal(i));
          }
        case OpenGroup(c) => buf := buf + [c];
        case ClosedGroup(c) => buf := buf + [c];
        case UnOp(c) => buf := buf + [c];
        case BinOp(c) => buf := buf + [c];
      }
      prev := next;
    }

    /** `fmt_child`. */
    method FmtChild(mom: Regex, daughter: Regex)
      modifies this
      decreases daughter, 2
      ensures buf == old(buf) + OutChild(numbered, old(prev), mom, daughter)
      ensures prev == LastChild(mom, daughter)
    {
      if Precedence(mom) > Precedence(daughter) {
        Write(OpenGroup('('));
        Fmt(daughter);
        Write(ClosedGroup(')'));
      } else {
        Fmt(daughter);
      }
    }

    /** `fmt`: the symbols of `re`, written one by one. */
    method Fmt(re: Regex)
      modifies this
      decreases re, 1
      ensures buf == old(buf) + Out(numbered, old(prev), re)
      ensures prev == LastOf(re)
    {
      match re
      case Null =>
        Write(LiteralChar('_', 0));
      case Literal(c, i) =>
        Write(LiteralChar(c, i));
      case Star(e) =>
        FmtChild(re, e);
        Write(UnOp('*'));
      case Plus(e) =>
        FmtChild(re, e);
        Write(UnOp('+'));
      case Concat(a, b) =>
        FmtChild(re, a);
        FmtChild(re, b);
      case Union(a, b) =>
        FmtChild(re, a);
        Write(BinOp('|'));
        FmtChild(re, b);
    }
  }

  /** What `fmt` appends after the class `prev`, piece by piece. */
  function Out(numbered: bool, prev: CharClass, re: Regex): string
    decreases re, 1
  {
    match re
    case Null => Emit(numbered, prev, LiteralChar('_', 0))
    case Literal(c, i) => Emit(numbered, prev, LiteralChar(c, i))
    case Star(e) => OutChild(numbered, prev, re, e) + Emit(numbered, LastChild(re, e), UnOp('*'))
    case Plus(e) => OutChild(numbered, prev, re, e) + Emit(numbered, LastChild(re, e), UnOp('+'))
    case Concat(a, b) => OutChild(numbered, prev, re, a) + OutChild(numbered, LastChild(re, a), re, b)
    case Union(a, b) => OutChild(numbered, prev, re, a) + Emit(numbered, LastChild(re, a), BinOp('|')) + OutChild(numbered, BinOp('|'), re, b)
  }

  function OutChild(numbered: bool, prev: CharClass, mom: Regex, daughter: Regex): string
    decreases daughter, 2
  {
    if Precedence(mom) > Precedence(daughter) then
      Emit(numbered, prev, OpenGroup('(')) + Out(numbered, OpenGroup('('), daughter) + Emit(numbered, LastOf(daughter), ClosedGroup(')'))
    else Out(numbered, prev, daughter)
  }

  /** The class of the last symbol `fmt` writes. */
  function LastOf(re: Regex): CharClass
    decreases re, 1
  {
    match re
    case Null => LiteralChar('_', 0)
    case Literal(c, i) => LiteralChar(c, i)
    case Star(e) => UnOp('*')
    case Plus(e) => UnOp('+')
    case Concat(a, b) => LastChild(re, b)
    case Union(a, b) => LastChild(re, b)
  }

  function LastChild(mom: Regex, daughter: Regex): CharClass
    decreases daughter, 2
  {
    if Precedence(mom) > Precedence(daughter) then ClosedGroup(')') else LastOf(daughter)
  }

  /** The piecewise output is the rendering of the symbol sequence `Tokens`. */
  lemma {:induction false} OutIsRender(numbered: bool, prev: CharClass, re: Regex)
    ensures Out(numbered, prev, re) == Render(numbered, prev, Tokens(re))
    ensures LastOf(re) == Last(prev, Tokens(re))
    decreases re, 1
  {
    match re
    case Null =>
      RenderOne(numbered, prev, LiteralChar('_', 0));
    case Literal(c, i) =>
      RenderOne(numbered, prev, LiteralChar(c, i));
    case Star(e) =>
      OutChildIsRender(numbered, prev, re, e);
      TokensPostfix(numbered, prev, re);
    case Plus(e) =>
      OutChildIsRender(numbered, prev, re, e);
      TokensPostfix(numbered, prev, re);
    case Concat(a, b) =>
      OutChildIsRender(numbered, prev, re, a);
      OutChildIsRender(numbered, LastChild(re, a), re, b);
      TokensConcat(numbered, prev, re);
    case Union(a, b) =>
      OutChildIsRender(numbered, prev, re, a);
      OutChildIsRender(numbered, BinOp('|'), re, b);
      TokensUnion(numbered, prev, re);
  }

  lemma {:induction false} OutChildIsRender(numbered: bool, prev: CharClass, mom: Regex, daughter: Regex)
    ensures OutChild(numbered, prev, mom, daughter) == Render(numbered, prev, ChildTokens(mom, daughter))
    ensures LastChild(mom, daughter) == Last(prev, ChildTokens(mom, daughter))
    decreases daughter, 2
  {
    if Precedence(mom) > Precedence(daughter) {
      OutIsRender(numbered, OpenGroup('('), daughter);
      ChildRenderGroup(numbered, prev, mom, daughter);
    } else {
      OutIsRender(numbered, prev, daughter);
    }
  }

  lemma TokensPostfix(numbered: bool, prev: CharClass, re: Regex)
    requires re.Star? || re.Plus?
    ensures var ts, op := ChildTokens(re, re.inner), UnOp(if re.Star? then '*' else '+');
      && Render(numbered, prev, Tokens(re)) == Render(numbered, prev, ts) + Emit(numbered, Last(prev, ts), op)
      && Last(prev, Tokens(re)) == op
  {
    RenderPostfix(numbered, prev, ChildTokens(re, re.inner), UnOp(if re.Star? then '*' else '+'));
  }

  lemma TokensConcat(numbered: bool, prev: CharClass, re: Regex)
    requires re.Concat?
    ensures var ta, tb := ChildTokens(re, re.lhs), ChildTokens(re, re.rhs);
      && Render(numbered, prev, Tokens(re)) == Render(numbered, prev, ta) + Render(numbered, Last(prev, ta), tb)
      && Last(prev, Tokens(re)) == Last(Last(prev, ta), tb)
  {
    RenderAppend(numbered, prev, ChildTokens(re, re.lhs), ChildTokens(re, re.rhs));
    LastAppend(prev, ChildTokens(re, re.lhs), ChildTokens(re, re.rhs));
  }

  lemma TokensUnion(numbered: bool, prev: CharClass, re: Regex)
    requires re.Union?
    ensures var ta, tb := ChildTokens(re, re.lhs), ChildTokens(re, re.rhs);
      && Render(numbered, prev, Tokens(re)) == Render(numbered, prev, ta) + Emit(numbered, Last(prev, ta), BinOp('|')) + Render(numbered, BinOp('|'), tb)
      && Last(prev, Tokens(re)) == Last(BinOp('|'), tb)
  {
    RenderInfix(numbered, prev, ChildTokens(re, re.lhs), BinOp('|'), ChildTokens(re, re.rhs));
  }

  lemma RenderOne(numbered: bool, prev: CharClass, t: CharClass)
    ensures Render(numbered, prev, [t]) == Emit(numbered, prev, t) && Last(prev, [t]) == t
  {
    assert [t][1..] == [];
  }

  lemma RenderPostfix(numbered: bool, prev: CharClass, ts: seq<CharClass>, op: CharClass)
    ensures Render(numbered, prev, ts + [op]) == Render(numbered, prev, ts) + Emit(numbered, Last(prev, ts), op)
    ensures Last(prev, ts + [op]) == op
  {
    RenderAppend(numbered, prev, ts, [op]);
    RenderOne(numbered, Last(prev, ts), op);
  }

  lemma RenderInfix(numbered: bool, prev: CharClass, a: seq<CharClass>, op: CharClass, b: seq<CharClass>)
    ensures Render(numbered, prev, a + [op] + b) == Render(numbered, prev, a) + Emit(numbered, Last(prev, a), op) + Render(numbered, op, b)
    ensures Last(prev, a + [op] + b) == Last(op, b)
  {
    RenderPostfix(numbered, prev, a, op);
    RenderAppend(numbered, prev, a + [op], b);
    LastAppend(prev, a + [op], b);
  }

  lemma ChildRenderGroup(numbered: bool, prev: CharClass, mom: Regex, daughter: Regex)
    requires Precedence(mom) > Precedence(daughter)
    ensures var open, ts := OpenGroup('('), Tokens(daughter);
      && Render(numbered, prev, ChildTokens(mom, daughter))
         == Emit(numbered, prev, open) + Render(numbered, open, ts) + Emit(numbered, Last(open, ts), ClosedGroup(')'))
      && Last(prev, ChildTokens(mom, daughter)) == ClosedGroup(')')
  {
    RenderGroup(numbered, prev, OpenGroup('('), Tokens(daughter), ClosedGroup(')'));
  }

  lemma RenderGroup(numbered: bool, prev: CharClass, open: CharClass, ts: seq<CharClass>, close: CharClass)
    ensures Render(numbered, prev, [open] + ts + [close]) == Emit(numbered, prev, open) + Render(numbered, open, ts) + Emit(numbered, Last(open, ts), close)
    ensures Last(prev, [open] + ts + [close]) == close
  {
    RenderOne(numbered, prev, open);
    RenderAppend(numbered, prev, [open], ts);
    RenderPostfix(numbered, prev, [open] + ts, close);
    LastAppend(prev, [open], ts);
    var e1, r := Emit(numbered, prev, open), Render(numbered, open, ts);
    calc {
      Render(numbered, prev, [open] + ts + [close]);
      Render(numbered, prev, [open] + ts) + Emit(numbered, Last(open, ts), close);
      e1 + r + Emit(numbered, Last(open, ts), close);
    }
  }

  lemma LastAppend(prev: CharClass, a: seq<CharClass>, b: seq<CharClass>)
    ensures Last(prev, a + b) == Last(Last(prev, a), b)
  {
    if b == [] {
      assert a + b == a;
    }
  }

  /** `Display` through the formatter: unnumbered, it prints exactly what the plain printer prints. */
  method ToPlainString(re: Regex) returns (s: string)
    ensures s == Display(re)
  {
    var f := new Formatter(false);
    f.Fmt(re);
    s := f.buf;
    UnnumberedIsDisplay(re, Ini);
  }

  /** `to_string_numbered`. */
  method ToStringNumbered(re: Regex) returns (s: string)
    ensures s == Numbered(re)
  {
    var f := new Formatter(true);
    f.Fmt(re);
    s := f.buf;
    OutIsRender(true, Ini, re);
  }

  /** Unnumbered rendering ignores the previous class and agrees with the plain printer. */
  lemma {:induction false} UnnumberedIsDisplay(re: Regex, prev: CharClass)
    ensures Out(false, prev, re) == Display(re)
    decreases re, 1
  {
    match re
    case Null =>
    case Literal(_, _) =>
    case Star(e) =>
      UnnumberedChild(re, e, prev);
    case Plus(e) =>
      UnnumberedChild(re, e, prev);
    case Concat(a, b) =>
      UnnumberedChild(re, a, prev);
      UnnumberedChild(re, b, LastChild(re, a));
    case Union(a, b) =>
      UnnumberedChild(re, a, prev);
      UnnumberedChild(re, b, BinOp('|'));
  }

  lemma {:induction false} UnnumberedChild(mom: Regex, daughter: Regex, prev: CharClass)
    ensures OutChild(false, prev, mom, daughter) == DisplayChild(mom, daughter)
    decreases daughter, 2
  {
    if Precedence(mom) > Precedence(daughter) {
      UnnumberedIsDisplay(daughter, OpenGroup('('));
    } else {
      UnnumberedIsDisplay(daughter, prev);
    }
  }

  /** Literals that the numbered output keeps apart from spaces, indices and operators. */
  predicate Numberable(re: Regex)
  {
    forall c :: c in Literals(re) ==> !IsOperatorChar(c) && c != ' ' && !IsDigit(c)
  }

  /** The symbols `fmt` can write: never `Ini`, each operator with its own character. */
  predicate GoodToken(t: CharClass)
  {
    match t
    case Ini => false
    case LiteralChar(c, _) => c != ' ' && c != '(' && c != ')' && c != '*' && c != '+' && !IsDigit(c)
    case OpenGroup(c) => c == '('
    case ClosedGroup(c) => c == ')'
    case UnOp(c) => c == '*' || c == '+'
    case BinOp(c) => c == '|'
  }

  predicate GoodTokens(toks: seq<CharClass>)
  {
    forall k :: 0 <= k < |toks| ==> GoodToken(toks[k])
  }

  lemma GoodTokensAppend(a: seq<CharClass>, b: seq<CharClass>)
    requires GoodTokens(a) && GoodTokens(b)
    ensures GoodTokens(a + b)
  {
    forall k | 0 <= k < |a + b| ensures GoodToken((a + b)[k]) {
      if k >= |a| {
        assert (a + b)[k] == b[k - |a|];
      }
    }
  }

  lemma {:induction false} TokensGood(re: Regex)
    requires Numberable(re)
    ensures GoodTokens(Tokens(re))
    decreases re, 1
  {
    match re
    case Null =>
    case Literal(c, _) =>
      assert c in Literals(re);
    case Star(e) =>
      ChildTokensGood(re, e);
      GoodTokensAppend(ChildTokens(re, e), [UnOp('*')]);
    case Plus(e) =>
      ChildTokensGood(re, e);
      GoodTokensAppend(ChildTokens(re, e), [UnOp('+')]);
    case Concat(a, b) =>
      ChildTokensGood(re, a);
      ChildTokensGood(re, b);
      GoodTokensAppend(ChildTokens(re, a), ChildTokens(re, b));
    case Union(a, b) =>
      ChildTokensGood(re, a);
      ChildTokensGood(re, b);
      GoodTokensAppend(ChildTokens(re, a), [BinOp('|')]);
      GoodTokensAppend(ChildTokens(re, a) + [BinOp('|')], ChildTokens(re, b));
  }

  lemma {:induction false} ChildTokensGood(mom: Regex, daughter: Regex)
    requires Numberable(daughter) || (Numberable(mom) && daughter < mom && LiteralsWithin(mom, daughter))
    ensures Numberable(daughter)
    ensures GoodTokens(ChildTokens(mom, daughter))
    decreases daughter, 2
  {
    TokensGood(daughter);
    if Precedence(mom) > Precedence(daughter) {
      GoodTokensAppend([OpenGroup('(')], Tokens(daughter));
      GoodTokensAppend([OpenGroup('(')] + Tokens(daughter), [ClosedGroup(')')]);
    }
  }

  /** The literals of an operand are among those of its parent. */
  predicate LiteralsWithin(mom: Regex, daughter: Regex)
  {
    forall c :: c in Literals(daughter) ==> c in Literals(mom)
  }

  /** Whatever the previous class, the first written symbol is not a space. */
  lemma FirstNotSpace(numbered: bool, t: CharClass, rest: seq<CharClass>)
    requires GoodToken(t)
    ensures Render(numbered, Ini, [t] + rest) != []
    ensures Render(numbered, Ini, [t] + rest)[0] != ' '
  {
    assert ([t] + rest)[0] == t && ([t] + rest)[1..] == rest;
  }

  /** In numbered mode the output is never empty and does not start with a space. */
  lemma NumberedNoLeadingSpace(re: Regex)
    requires Numberable(re)
    ensures Numbered(re) != [] && Numbered(re)[0] != ' '
  {
    TokensGood(re);
    var ts := Tokens(re);
    assert ts != [] by {
      match re
      case Null =>
      case Literal(_, _) =>
      case Star(e) =>
      case Plus(e) =>
      case Concat(a, b) =>
        ChildTokensNonEmpty(re, a);
      case Union(a, b) =>
    }
    assert ts == [ts[0]] + ts[1..];
    FirstNotSpace(true, ts[0], ts[1..]);
  }

  lemma ChildTokensNonEmpty(mom: Regex, daughter: Regex)
    ensures ChildTokens(mom, daughter) != []
    decreases daughter
  {
    match daughter
    case Null =>
    case Literal(_, _) =>
    case Star(e) =>
    case Plus(e) =>
    case Concat(a, b) =>
      ChildTokensNonEmpty(daughter, a);
    case Union(a, b) =>
  }

  /** The text without its spaces and digits. */
  function Strip(s: string): string
  {
    if s == [] then [] else Strip(s[..|s| - 1]) + (if s[|s| - 1] == ' ' || IsDigit(s[|s| - 1]) then [] else [s[|s| - 1]])
  }

  lemma {:induction false} StripAppend(a: string, b: string)
    ensures Strip(a + b) == Strip(a) + Strip(b)
    decreases |b|
  {
    if b == [] {
      assert a + b == a;
    } else {
      var b' := b[..|b| - 1];
      StripAppend(a, b');
      assert (a + b)[..|a + b| - 1] == a + b';
    }
  }

  lemma {:induction false} StripDigits(s: string)
    requires forall k :: 0 <= k < |s| ==> IsDigit(s[k])
    ensures Strip(s) == []
  {
    if s != [] {
      StripDigits(s[..|s| - 1]);
    }
  }

  lemma StripEmit(prev: CharClass, t: CharClass)
    requires GoodToken(t)
    ensures Strip(Emit(true, prev, t)) == Emit(false, prev, t)
  {
    var sp := if Space(true, prev, t) then " " else "";
    var txt := Text(true, t);
    assert Emit(true, prev, t) == sp + txt;
    assert Emit(false, prev, t) == Text(false, t);
    StripAppend(sp, txt);
    StripSingle(' ');
    assert Strip(sp) == [];
    if t.LiteralChar? {
      assert txt == [t.c] + Decimal(t.index);
      StripAppend([t.c], Decimal(t.index));
      StripDigits(Decimal(t.index));
      StripSingle(t.c);
      assert Strip(txt) == [t.c];
    } else {
      assert txt == [t.c] && !IsDigit(t.c) && t.c != ' ';
      StripSingle(t.c);
    }
  }

  lemma StripSingle(c: char)
    ensures Strip([c]) == if c == ' ' || IsDigit(c) then [] else [c]
  {
    assert [c][..0] == [];
  }

  lemma {:induction false} StripRender(prev: CharClass, toks: seq<CharClass>)
    requires GoodTokens(toks)
    ensures Strip(Render(true, prev, toks)) == Render(false, prev, toks)
    decreases |toks|
  {
    if toks != [] {
      assert GoodToken(toks[0]);
      StripEmit(prev, toks[0]);
      StripRender(toks[0], toks[1..]);
      StripAppend(Emit(true, prev, toks[0]), Render(true, toks[0], toks[1..]));
    }
  }

  /** The numbered output is the plain output with spaces and literal indices added. */
  lemma NumberedStripsToDisplay(re: Regex)
    requires Numberable(re)
    ensures Strip(Numbered(re)) == Display(re)
  {
    TokensGood(re);
    StripRender(Ini, Tokens(re));
    OutIsRender(false, Ini, re);
    UnnumberedIsDisplay(re, Ini);
  }

  /** No space directly before a `*` or `+`. */
  predicate NoSpaceBefore(s: string, x: char)
  {
    forall k :: 0 < k < |s| && s[k] == x ==> s[k - 1] != ' '
  }

  /** `x`, a space, then `x` again never occurs. */
  predicate NoSpacedRepeat(s: string, x: char)
  {
    forall k :: 1 < k < |s| && s[k] == x && s[k - 1] == ' ' ==> s[k - 2] != x
  }

  predicate Spacing(s: string)
  {
    NoSpaceBefore(s, '*') && NoSpaceBefore(s, '+') && NoSpacedRepeat(s, '(') && NoSpacedRepeat(s, ')')
  }

  /** The shape of one emitted piece. */
  lemma EmitShape(prev: CharClass, t: CharClass)
    requires GoodToken(t)
    ensures var e := Emit(true, prev, t);
      && |e| >= 1
      && e[|e| - 1] != ' '
      && (e[|e| - 1] == '(' ==> t.OpenGroup?)
      && (e[|e| - 1] == ')' ==> t.ClosedGroup?)
      && (forall k :: 1 <= k < |e| ==> e[k] != ' ')
      && (e[0] == ' ' ==> |e| >= 2 && Space(true, prev, t))
      && (e[0] != ' ' ==> !Space(true, prev, t))
      && Spacing(e)
  {
    var e := Emit(true, prev, t);
    var txt := Text(true, t);
    assert txt != [] && txt[0] != ' ';
    assert forall k :: 1 <= k < |txt| ==> txt[k] != ' ' && txt[k] != '(' && txt[k] != ')' && txt[k] != '*' && txt[k] != '+';
    assert txt[0] == '(' ==> t.OpenGroup?;
    assert txt[0] == ')' ==> t.ClosedGroup?;
    assert (txt[0] == '*' || txt[0] == '+') ==> t.UnOp?;
    if Space(true, prev, t) {
      assert e == " " + txt;
    } else {
      assert e == txt;
    }
  }

  /** In numbered mode no space comes before a postfix operator, between two `(` or between two `)`. */
  lemma {:induction false} RenderSpacing(prev: CharClass, toks: seq<CharClass>)
    requires GoodTokens(toks)
    ensures Spacing(Render(true, prev, toks))
    decreases |toks|
  {
    if toks != [] {
      var t := toks[0];
      assert GoodToken(t);
      assert GoodTokens(toks[1..]);
      RenderSpacing(t, toks[1..]);
      EmitShape(prev, t);
      Seam(prev, t, toks[1..]);
      JoinSpacing(Emit(true, prev, t), Render(true, t, toks[1..]));
    } else {
      assert Render(true, prev, toks) == [];
    }
  }

  /** The rendering of a non-empty run starts with the first piece. */
  lemma RenderHead(prev: CharClass, toks: seq<CharClass>)
    requires toks != []
    ensures var e := Emit(true, prev, toks[0]);
      |Render(true, prev, toks)| >= |e| && Render(true, prev, toks)[..|e|] == e
  {
  }

  /** Two texts joined where the first does not end in a space and no `( (` or `) )` straddles the seam. */
  lemma JoinSpacing(e: string, r: string)
    requires Spacing(e) && Spacing(r)
    requires |e| >= 1 && e[|e| - 1] != ' '
    requires !(e[|e| - 1] == '(' && |r| >= 2 && r[0] == ' ' && r[1] == '(')
    requires !(e[|e| - 1] == ')' && |r| >= 2 && r[0] == ' ' && r[1] == ')')
    ensures Spacing(e + r)
  {
    JoinNoSpaceBefore(e, r, '*');
    JoinNoSpaceBefore(e, r, '+');
    JoinNoSpacedRepeat(e, r, '(');
    JoinNoSpacedRepeat(e, r, ')');
  }

  lemma JoinNoSpaceBefore(e: string, r: string, x: char)
    requires NoSpaceBefore(e, x) && NoSpaceBefore(r, x)
    requires |e| >= 1 && e[|e| - 1] != ' '
    ensures NoSpaceBefore(e + r, x)
  {
    var s := e + r;
    forall k | 0 < k < |s| && s[k] == x ensures s[k - 1] != ' ' {
      if k > |e| {
        assert s[k] == r[k - |e|] && s[k - 1] == r[k - 1 - |e|];
      } else if k < |e| {
        assert s[k] == e[k] && s[k - 1] == e[k - 1];
      }
    }
  }

  lemma JoinNoSpacedRepeat(e: string, r: string, x: char)
    requires NoSpacedRepeat(e, x) && NoSpacedRepeat(r, x)
    requires |e| >= 1 && e[|e| - 1] != ' '
    requires !(e[|e| - 1] == x && |r| >= 2 && r[0] == ' ' && r[1] == x)
    ensures NoSpacedRepeat(e + r, x)
  {
    var s := e + r;
    forall k | 1 < k < |s| && s[k] == x && s[k - 1] == ' ' ensures s[k - 2] != x {
      if k == |e| + 1 {
        assert s[k] == r[1] && s[k - 1] == r[0] && s[k - 2] == e[|e| - 1];
      } else if k > |e| + 1 {
        assert s[k] == r[k - |e|] && s[k - 1] == r[k - 1 - |e|] && s[k - 2] == r[k - 2 - |e|];
      } else if k < |e| {
        assert s[k] == e[k] && s[k - 1] == e[k - 1] && s[k - 2] == e[k - 2];
      }
    }
  }

  /** No `( (` or `) )` straddles the seam between two consecutive pieces. */
  lemma Seam(prev: CharClass, t: CharClass, rest: seq<CharClass>)
    requires GoodToken(t) && GoodTokens(rest)
    ensures var e, r := Emit(true, prev, t), Render(true, t, rest);
      && |e| >= 1
      && !(e[|e| - 1] == '(' && |r| >= 2 && r[0] == ' ' && r[1] == '(')
      && !(e[|e| - 1] == ')' && |r| >= 2 && r[0] == ' ' && r[1] == ')')
  {
    EmitShape(prev, t);
    if rest != [] {
      assert GoodToken(rest[0]);
      EmitShape(t, rest[0]);
      RenderHead(t, rest);
      var e2 := Emit(true, t, rest[0]);
      var r := Render(true, t, rest);
      if e2[0] == ' ' {
        var txt := Text(true, rest[0]);
        assert e2 == " " + txt;
        assert r[0] == ' ' && r[1] == txt[0];
        assert txt[0] == '(' ==> rest[0].OpenGroup?;
        assert txt[0] == ')' ==> rest[0].ClosedGroup?;
      } else {
        assert r[0] == e2[0];
      }
    }
  }

  /** The numbered rendering of a regex keeps the spacing rules. */
  lemma NumberedSpacing(re: Regex)
    requires Numberable(re)
    ensures Spacing(Numbered(re))
  {
    TokensGood(re);
    RenderSpacing(Ini, Tokens(re));
  }
}
