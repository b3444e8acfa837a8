/**
 * Local sets of a numbered regular language: numbered terminals, the product of two
 * sets of them (the digrams it generates), and the follower map that the
 * Berry-Sethi construction reads the digrams from.
 */
module RegLang {

  /** A terminal with its number in the expression, such as `a3`. */
  datatype NumTerm = NumTerm(c: char, i: nat)

  /**
   * The local sets a numbered expression provides: whether it is nullable, all its
   * numbered terminals, the initial and final ones, and its digrams.
   */
  datatype LocalSets = LocalSets(
    nullable: bool,
    allNumbered: set<NumTerm>,
    initials: set<NumTerm>,
    finals: set<NumTerm>,
    digrams: set<(NumTerm, NumTerm)>)

  /** Every pair with its first member in `a` and its second in `b`. */
  ghost function Prod(a: set<NumTerm>, b: set<NumTerm>): set<(NumTerm, NumTerm)>
  {
    set x, y | x in a && y in b :: (x, y)
  }

  /** `set_prod`: the two nested loops inserting every pair. */
  method SetProd(a: set<NumTerm>, b: set<NumTerm>) returns (res: set<(NumTerm, NumTerm)>)
    ensures forall p :: p in res <==> p.0 in a && p.1 in b
    ensures |res| == |a| * |b|
    ensures res == {} <==> a == {} || b == {}
  {
    res := {};
    var restA := a;
    while restA != {}
      invariant restA <= a
      invariant forall p :: p in res <==> p.0 in a - restA && p.1 in b
      decreases |restA|
    {
      var ia :| ia in restA;
      var restB := b;
      while restB != {}
        invariant restB <= b
        invariant forall p :: p in res <==> (p.0 in a - restA && p.1 in b) || (p.0 == ia && p.1 in b - restB)
        decreases |restB|
      {
        var ib :| ib in restB;
        res := res + {(ia, ib)};
        restB := restB - {ib};
      }
      restA := restA - {ia};
    }
    assert res == Prod(a, b);
    ProdCard(a, b);
  }

  /** The pairs `(x, y)` for the members `y` of `b`. */
  ghost function Row(x: NumTerm, b: set<NumTerm>): set<(NumTerm, NumTerm)>
  {
    set y | y in b :: (x, y)
  }

  lemma {:induction false} RowCard(x: NumTerm, b: set<NumTerm>)
    ensures |Row(x, b)| == |b|
  {
    if b != {} {
      var y :| y in b;
      RowCard(x, b - {y});
      assert Row(x, b) == Row(x, b - {y}) + {(x, y)};
      assert (x, y) !in Row(x, b - {y});
    } else {
      assert Row(x, b) == {};
    }
  }

  /** The product of two sets has `|a| * |b|` pairs. */
  lemma {:induction false} ProdCard(a: set<NumTerm>, b: set<NumTerm>)
    ensures |Prod(a, b)| == |a| * |b|
  {
    if a != {} {
      var x :| x in a;
      ProdCard(a - {x}, b);
      RowCard(x, b);
      ProdSplit(a, b, x);
      MulStep(|a|, |b|);
    } else {
      assert Prod(a, b) == {};
    }
  }

  /** The pairs drawing `x` from `a` form one row, apart from the others. */
  lemma ProdSplit(a: set<NumTerm>, b: set<NumTerm>, x: NumTerm)
    requires x in a
    ensures Prod(a, b) == Prod(a - {x}, b) + Row(x, b) && Prod(a - {x}, b) !! Row(x, b)
    ensures |a - {x}| == |a| - 1
  {
  }

  lemma MulStep(m: nat, n: nat)
    requires m > 0
    ensures (m - 1) * n + n == m * n
  {
  }

  /** Every digram starts with a numbered terminal of the expression. */
  predicate DigramsInAlphabet(x: LocalSets)
  {
    forall p :: p in x.digrams ==> p.0 in x.allNumbered
  }

  /**
   * `numbered_followers`: an empty entry for every numbered terminal, then each
   * digram `(t, f)` adds `f` to the entry of `t`. A digram whose first member has
   * no entry makes the toolkit panic, hence the precondition.
   */
  method NumberedFollowers(x: LocalSets) returns (res: map<NumTerm, set<NumTerm>>)
    requires DigramsInAlphabet(x)
    ensures res.Keys == x.allNumbered
    ensures forall t :: t in res ==> forall f :: f in res[t] <==> (t, f) in x.digrams
  {
    res := EmptyEntries(x.allNumbered);
    res := AddDigrams(res, x.digrams);
  }

  /** The first loop of `numbered_followers`: an empty set for every key. */
  method EmptyEntries(keys: set<NumTerm>) returns (res: map<NumTerm, set<NumTerm>>)
    ensures res.Keys == keys
    ensures forall t :: t in res ==> res[t] == {}
  {
    res := map[];
    var rest := keys;
    while rest != {}
      invariant rest <= keys
      invariant res.Keys == keys - rest
      invariant forall t :: t in res ==> res[t] == {}
      decreases |rest|
    {
      var t :| t in rest;
      res := res[t := {}];
      rest := rest - {t};
    }
  }

  /** The second loop of `numbered_followers`: each digram `(t, f)` adds `f` to the entry of `t`. */
  method AddDigrams(entries: map<NumTerm, set<NumTerm>>, digrams: set<(NumTerm, NumTerm)>) returns (res: map<NumTerm, set<NumTerm>>)
    requires forall p :: p in digrams ==> p.0 in entries
    ensures res.Keys == entries.Keys
    ensures forall t :: t in res ==> forall f :: f in res[t] <==> f in entries[t] || (t, f) in digrams
  {
    res := entries;
    var pending := digrams;
    while pending != {}
      invariant pending <= digrams
      invariant res.Keys == entries.Keys
      invariant forall t :: t in res ==> forall f :: f in res[t] <==> f in entries[t] || (t, f) in digrams - pending
      decreases |pending|
    {
      var p :| p in pending;
      ghost var before := res;
      res := res[p.0 := res[p.0] + {p.1}];
      pending := pending - {p};
      forall t | t in res ensures forall f :: f in res[t] <==> f in entries[t] || (t, f) in digrams - pending {
        if t != p.0 {
          assert res[t] == before[t];
        }
      }
    }
  }
}
