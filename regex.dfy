/**
 * Regular expressions and their plain printer: an operand is parenthesised exactly
 * when its operator binds more loosely than the enclosing one.
 */
module Regex {

  /**
   * A regular expression. Literals carry a character and its number in the
   * expression (the Berry-Sethi numbering); `Null` is the empty word.
   */
  datatype Regex =
    | Null
    | Literal(c: char, index: nat)
    | Union(lhs: Regex, rhs: Regex)
    | Concat(lhs: Regex, rhs: Regex)
    | Star(inner: Regex)
    | Plus(inner: Regex)

  /** Binding strength: leaves 0, postfix operators -1, concatenation -2, union -3. */
  function Precedence(r: Regex): (p: int)
    ensures -3 <= p <= 0
    ensures p == 0 <==> r.Null? || r.Literal?
    ensures p == -1 <==> r.Star? || r.Plus?
    ensures p == -3 <==> r.Union?
  {
    match r
    case Null => 0
    case Literal(_, _) => 0
    case Star(_) => -1
    case Plus(_) => -1
    case Concat(_, _) => -2
    case Union(_, _) => -3
  }

  /** The `Display` printer. */
  function Display(r: Regex): string
    decreases r, 1
  {
    match r
    case Null => "_"
    case Literal(c, _) => [c]
    case Star(e) => DisplayChild(r, e) + "*"
    case Plus(e) => DisplayChild(r, e) + "+"
    case Concat(a, b) => DisplayChild(r, a) + DisplayChild(r, b)
    case Union(a, b) => DisplayChild(r, a) + "|" + DisplayChild(r, b)
  }

  /** `fmt_child`: an operand in parentheses when the parent binds tighter. */
  function DisplayChild(parent: Regex, child: Regex): string
    decreases child, 2
  {
    if Precedence(parent) > Precedence(child) then "(" + Display(child) + ")" else Display(child)
  }

  /** The literal characters, left to right. */
  function Literals(r: Regex): seq<char>
  {
    match r
    case Null => []
    case Literal(c, _) => [c]
    case Star(e) => Literals(e)
    case Plus(e) => Literals(e)
    case Concat(a, b) => Literals(a) + Literals(b)
    case Union(a, b) => Literals(a) + Literals(b)
  }

  /** The characters the printer uses for itself. */
  predicate IsOperatorChar(c: char)
  {
    c == '_' || c == '|' || c == '*' || c == '+' || c == '(' || c == ')'
  }

  /** Literals that cannot be confused with the printer's own characters or with a space. */
  predicate PlainLiterals(r: Regex)
  {
    forall c :: c in Literals(r) ==> !IsOperatorChar(c) && c != ' '
  }

  /** The characters of a text that are not the printer's own. */
  function Letters(s: string): string
  {
    if s == [] then [] else Letters(s[..|s| - 1]) + (if IsOperatorChar(s[|s| - 1]) then [] else [s[|s| - 1]])
  }

  lemma {:induction false} LettersAppend(a: string, b: string)
    ensures Letters(a + b) == Letters(a) + Letters(b)
    decreases |b|
  {
    if b == [] {
      assert a + b == a;
    } else {
      var b' := b[..|b| - 1];
      LettersAppend(a, b');
      assert (a + b)[..|a + b| - 1] == a + b';
    }
  }

  /** Opened minus closed parentheses. */
  function Depth(s: string): int
  {
    if s == [] then 0 else Depth(s[..|s| - 1]) + (if s[|s| - 1] == '(' then 1 else if s[|s| - 1] == ')' then -1 else 0)
  }

  /** Every prefix opens at least as many parentheses as it closes, and the whole text closes them all. */
  predicate Balanced(s: string)
  {
    Depth(s) == 0 && forall k :: 0 <= k <= |s| ==> Depth(s[..k]) >= 0
  }

  lemma {:induction false} DepthAppend(a: string, b: string)
    ensures Depth(a + b) == Depth(a) + Depth(b)
    decreases |b|
  {
    if b == [] {
      assert a + b == a;
    } else {
      var b' := b[..|b| - 1];
      DepthAppend(a, b');
      assert (a + b)[..|a + b| - 1] == a + b';
    }
  }

  lemma BalancedAppend(a: string, b: string)
    requires Balanced(a) && Balanced(b)
    ensures Balanced(a + b)
  {
    DepthAppend(a, b);
    forall k | 0 <= k <= |a + b| ensures Depth((a + b)[..k]) >= 0 {
      if k <= |a| {
        assert (a + b)[..k] == a[..k];
      } else {
        assert (a + b)[..k] == a + b[..k - |a|];
        DepthAppend(a, b[..k - |a|]);
      }
    }
  }

  lemma BalancedWrap(a: string)
    requires Balanced(a)
    ensures Balanced("(" + a + ")")
  {
    var w := "(" + a + ")";
    DepthAppend("(", a);
    DepthAppend("(" + a, ")");
    forall k | 0 <= k <= |w| ensures Depth(w[..k]) >= 0 {
      if 1 <= k <= |a| + 1 {
        assert w[..k] == "(" + a[..k - 1];
        DepthAppend("(", a[..k - 1]);
      } else if k == |w| {
        assert w[..k] == w;
      }
    }
  }

  /** A text without parentheses. */
  lemma NoParensBalanced(s: string)
    requires '(' !in s && ')' !in s
    ensures Balanced(s)
  {
    forall k | 0 <= k <= |s| ensures Depth(s[..k]) == 0 {
      NoParensDepth(s[..k]);
    }
    assert s[..|s|] == s;
  }

  lemma {:induction false} NoParensDepth(s: string)
    requires '(' !in s && ')' !in s
    ensures Depth(s) == 0
  {
    if s != [] {
      assert forall c :: c in s[..|s| - 1] ==> c in s;
      NoParensDepth(s[..|s| - 1]);
      assert s[|s| - 1] in s;
    }
  }

  lemma PlainLiteralsParts(r: Regex)
    requires PlainLiterals(r)
    ensures match r
            case Star(e) => PlainLiterals(e)
            case Plus(e) => PlainLiterals(e)
            case Concat(a, b) => PlainLiterals(a) && PlainLiterals(b)
            case Union(a, b) => PlainLiterals(a) && PlainLiterals(b)
            case _ => true
  {
  }

  /** Removing the printer's own characters from the output leaves the literals in order. */
  lemma {:induction false} DisplayLetters(r: Regex)
    requires PlainLiterals(r)
    ensures Letters(Display(r)) == Literals(r)
    decreases r, 1
  {
    PlainLiteralsParts(r);
    match r
    case Null =>
    case Literal(c, _) =>
      assert [c][..0] == [];
    case Star(e) =>
      ChildLetters(r, e);
      LettersAppend(DisplayChild(r, e), "*");
      LettersOperator('*');
    case Plus(e) =>
      ChildLetters(r, e);
      LettersAppend(DisplayChild(r, e), "+");
      LettersOperator('+');
    case Concat(a, b) =>
      ChildLetters(r, a);
      ChildLetters(r, b);
      LettersAppend(DisplayChild(r, a), DisplayChild(r, b));
    case Union(a, b) =>
      ChildLetters(r, a);
      ChildLetters(r, b);
      LettersAppend(DisplayChild(r, a), "|");
      LettersAppend(DisplayChild(r, a) + "|", DisplayChild(r, b));
      LettersOperator('|');
  }

  lemma {:induction false} ChildLetters(parent: Regex, child: Regex)
    requires PlainLiterals(child)
    ensures Letters(DisplayChild(parent, child)) == Literals(child)
    decreases child, 2
  {
    DisplayLetters(child);
    if Precedence(parent) > Precedence(child) {
      LettersWrap(Display(child));
    }
  }

  lemma LettersWrap(d: string)
    ensures Letters("(" + d + ")") == Letters(d)
  {
    LettersAppend("(", d);
    LettersAppend("(" + d, ")");
    LettersOperator('(');
    LettersOperator(')');
  }

  lemma LettersOperator(c: char)
    requires IsOperatorChar(c)
    ensures Letters([c]) == []
  {
    assert [c][..0] == [];
  }

  /** The output has balanced parentheses and no spaces. */
  lemma {:induction false} DisplayBalanced(r: Regex)
    requires PlainLiterals(r)
    ensures Balanced(Display(r)) && ' ' !in Display(r)
    decreases r, 1
  {
    PlainLiteralsParts(r);
    match r
    case Null =>
      NoParensBalanced("_");
    case Literal(c, _) =>
      assert c in Literals(r);
      NoParensBalanced([c]);
    case Star(e) =>
      ChildBalanced(r, e);
      NoParensBalanced("*");
      BalancedAppend(DisplayChild(r, e), "*");
    case Plus(e) =>
      ChildBalanced(r, e);
      NoParensBalanced("+");
      BalancedAppend(DisplayChild(r, e), "+");
    case Concat(a, b) =>
      ChildBalanced(r, a);
      ChildBalanced(r, b);
      BalancedAppend(DisplayChild(r, a), DisplayChild(r, b));
    case Union(a, b) =>
      ChildBalanced(r, a);
      ChildBalanced(r, b);
      NoParensBalanced("|");
      BalancedAppend(DisplayChild(r, a), "|");
      BalancedAppend(DisplayChild(r, a) + "|", DisplayChild(r, b));
  }

  lemma {:induction false} ChildBalanced(parent: Regex, child: Regex)
    requires PlainLiterals(child)
    ensures Balanced(DisplayChild(parent, child)) && ' ' !in DisplayChild(parent, child)
    decreases child, 2
  {
    DisplayBalanced(child);
    if Precedence(parent) > Precedence(child) {
      BalancedWrap(Display(child));
    }
  }

  /** The literal indices of a regex, left to right. */
  function LitIndices(r: Regex): seq<nat>
  {
    match r
    case Null => []
    case Literal(_, i) => [i]
    case Star(e) => LitIndices(e)
    case Plus(e) => LitIndices(e)
    case Concat(a, b) => LitIndices(a) + LitIndices(b)
    case Union(a, b) => LitIndices(a) + LitIndices(b)
  }

  /** `lo, lo + 1, …, hi - 1`. */
  function Interval(lo: nat, hi: nat): (r: seq<nat>)
    requires lo <= hi
    ensures |r| == hi - lo
    decreases hi - lo
  {
    if lo == hi then [] else [lo] + Interval(lo + 1, hi)
  }

  /** The `k`-th number of `Interval(lo, hi)` is `lo + k`. */
  lemma {:induction false} IntervalAt(lo: nat, hi: nat)
    requires lo <= hi
    ensures forall k :: 0 <= k < hi - lo ==> Interval(lo, hi)[k] == lo + k
    decreases hi - lo
  {
    if lo < hi {
      IntervalAt(lo + 1, hi);
    }
  }

  lemma IntervalAppend(a: nat, b: nat, c: nat)
    requires a <= b <= c
    ensures Interval(a, b) + Interval(b, c) == Interval(a, c)
  {
    IntervalAt(a, b);
    IntervalAt(b, c);
    IntervalAt(a, c);
    assert forall k :: 0 <= k < c - a ==> (Interval(a, b) + Interval(b, c))[k] == a + k;
  }

  /** Joining two consecutively numbered operands numbers the whole consecutively. */
  lemma JoinIndices(lhs: Regex, rhs: Regex, a: nat, b: nat, c: nat)
    requires a <= b <= c && LitIndices(lhs) == Interval(a, b) && LitIndices(rhs) == Interval(b, c)
    ensures LitIndices(Concat(lhs, rhs)) == Interval(a, c) && LitIndices(Union(lhs, rhs)) == Interval(a, c)
  {
    IntervalAppend(a, b, c);
  }

  /** Numbered literals are pairwise distinct. */
  lemma IntervalDistinct(lo: nat, hi: nat)
    requires lo <= hi
    ensures forall j, k :: 0 <= j < k < hi - lo ==> Interval(lo, hi)[j] != Interval(lo, hi)[k]
  {
    IntervalAt(lo, hi);
  }
}
