/** Bounded repetition copies the anchors of its operand, and the parser counts them once
    (src/backend/regex/regcomp.c, lines 406-416 and 1036-1102): when the counts still cover the strip, and
    what a search misses when they do not. */
module FewRounds {
  import opened Strip
  import opened Text
  import opened Regex
  import opened Paths
  import opened Stepper
  import opened Simulation
  import opened Engine
  import opened Syntax
  import opened CodeGen
  import opened Counting
  import opened Compile

  // ----- when the counts cover the strip -----

  /** How often the operand stands in the expansion. */
  function Copies(least: nat, most: nat): nat {
    if most == INFINITY then if least == 0 then 1 else least else most
  }

  lemma {:induction false} SeenBounded(d: Expr, least: nat, most: nat, op: Sop)
    requires least <= most <= INFINITY && least <= DUPMAX
    ensures Seen(Bounded(d, least, most), op) == Copies(least, most) * Seen(d, op)
    decreases most, if least == 0 then INFINITY else least
  {
    hide Seen;
    var n := Seen(d, op);
    SeenInParts(d, d, op);
    OneMore(0, n);
    if least <= 1 && most == least {
    } else if least == 0 {
      SeenBounded(d, 1, most, op);
      SeenInParts(d, Bounded(d, 1, most), op);
    } else if least == 1 && most == INFINITY {
    } else if least == 1 {
      SeenBounded(d, 1, most - 1, op);
      SeenInParts(d, Bounded(d, 1, most - 1), op);
      OneMore(most - 1, n);
    } else {
      var rest := if most == INFINITY then most else most - 1;
      SeenBounded(d, least - 1, rest, op);
      SeenInParts(d, Bounded(d, least - 1, rest), op);
      OneMore(Copies(least - 1, rest), n);
    }
  }

  lemma {:induction false} SeenInParts(d: Expr, rest: Expr, op: Sop)
    ensures Seen(Cat(Opt(d), rest), op) == Seen(Cat(d, rest), op) == Seen(d, op) + Seen(rest, op)
    ensures Seen(Empty, op) == 0 && Seen(Some1(d), op) == Seen(d, op) && Seen(Opt(rest), op) == Seen(rest, op)
  {
  }

  lemma {:induction false} OneMore(k: nat, n: nat)
    ensures 0 * n == 0 && n + k * n == (k + 1) * n
  {
  }

  lemma {:induction false} NoMoreThanOne(k: nat, n: nat)
    ensures k * n <= n <==> n == 0 || k <= 1
  {
    if k > 1 && n > 0 { assert k * n >= 2 * n; }
    if k == 1 { assert k * n == n; }
  }

  /** The counts kept while the operand was parsed cover the code of its repetition exactly when the
      operand has no anchor, or no second copy of it is made. */
  lemma {:induction false} CoversIff(d: Expr, least: nat, most: nat)
    requires least <= most <= INFINITY && least <= DUPMAX
    ensures var strip := Code(Bounded(d, least, most));
            |strip| >= 2
            && (Counted(strip, 1, |strip| - 1, Seen(d, OBol), Seen(d, OEol))
                <==> (Seen(d, OBol) == 0 && Seen(d, OEol) == 0) || Copies(least, most) <= 1)
  {
    hide Seen, Copies, Bounded, Code, Emit, Where;
    CodeIsCounted(Bounded(d, least, most));
    SeenBounded(d, least, most, OBol);
    SeenBounded(d, least, most, OEol);
    NoMoreThanOne(Copies(least, most), Seen(d, OBol));
    NoMoreThanOne(Copies(least, most), Seen(d, OEol));
  }

  // ----- an example: (^){2} on "" -----

  /** (^) */
  const HAT: Expr := Group(1, Sym(Atom.Bol))

  const HATS: Ops := [OEnd, OLParen(1), OBol, ORParen(1), OLParen(1), OBol, ORParen(1), OEnd]

  const NIL := Subject("", 0, 0, false, false, false, [])

  /** What regcomp leaves, the one ^ it has counted included. */
  const G := Guts(HATS, [], false, false, 0, 7, 1, 0, None, 1, false, 0)

  lemma {:induction false} CodeIsHats()
    ensures Code(Bounded(HAT, 2, 2)) == HATS && Seen(HAT, OBol) == G.nbol && Seen(HAT, OEol) == G.neol
  {
    hide Layout, Emit, Code, Form;
    assert Bounded(HAT, 2, 2) == Cat(HAT, HAT);
    Shapes(Sym(Atom.Bol));
    Shapes(HAT);
    Shapes(Cat(HAT, HAT));
    CodeIsForm(Cat(HAT, HAT));
  }

  /** The empty text is matched. */
  lemma {:induction false} HatsMatch()
    ensures Path(NIL, HATS, 1, 7, 0, 0)
  {
    hide Reach;
    var a := At(0, false);
    StartReached(a);
    ReachStep(NIL, HATS, 1, 7, 0, 0, Conf(1, a), Conf(2, a));
    ReachStep(NIL, HATS, 1, 7, 0, 0, Conf(2, a), Conf(3, a));
    ReachStep(NIL, HATS, 1, 7, 0, 0, Conf(3, a), Conf(4, a));
    ReachStep(NIL, HATS, 1, 7, 0, 0, Conf(4, a), Conf(5, a));
    ReachStep(NIL, HATS, 1, 7, 0, 0, Conf(5, a), Conf(6, a));
    ReachStep(NIL, HATS, 1, 7, 0, 0, Conf(6, a), Conf(7, a));
  }

  lemma {:induction false} StartReached(a: At)
    requires a == At(0, false)
    ensures Reach(NIL, HATS, 1, 7, 0, 0, Conf(1, a))
  {
  }

  ghost const PASSED: set<nat> := {1, 2, 3, 4, 5}

  /** One round passes the first anchor and not the second. */
  lemma {:induction false} OneRound(st0: set<nat>, st1: set<nat>, st: set<nat>)
    requires IsFresh(HATS, 1, 7, st0) && LineRounds(NIL, HATS, 1, 7, 1, 0, 0, st0, st1)
    requires WordClosure(NIL, HATS, 1, 7, 0, st1, st)
    ensures 7 !in st
  {
    FreshStates(st0);
    var m :| Rounded(HATS, [], 1, 7, BolEol, 0, st0, m) && IsStep(HATS, [], 1, 7, m, BolEol, m, st1);
    assert m == st0;
    assert Admits(HATS, [], 1, 7, m, BolEol, m, PASSED);
    assert st1 <= PASSED;
    assert WordClosed(NIL, HATS, 1, 7, 0, st1, PASSED);
  }

  lemma {:induction false} FreshStates(st0: set<nat>)
    requires IsFresh(HATS, 1, 7, st0)
    ensures st0 <= {1, 2}
  {
    var X: set<nat> := {1, 2};
    assert EpsClosed(HATS, 1, 7, X) && 1 in X;
  }

  /** `(^){2}` matches the empty text, but both searches find nothing: the parser has counted one ^,
      and there are two in a row. */
  method HatsMissed() returns (first: Option<nat>, longest: Option<nat>)
    ensures Code(Bounded(HAT, 2, 2)) == HATS && Seen(HAT, OBol) == G.nbol && Seen(HAT, OEol) == G.neol
    ensures Path(NIL, HATS, 1, 7, 0, 0) && first == None && longest == None
  {
    hide IsFresh, LineRounds, WordClosure, Path, Code, Bounded, Seen;
    CodeIsHats();
    var m := new Matcher(G, NIL);
    HatsMatch();
    HatsCanBeSearched();
    first := m.Fast(0, 0, 1, 7);
    longest := m.Slow(0, 0, 1, 7);
    forall st0, st1, st | IsFresh(HATS, 1, 7, st0) && LineRounds(NIL, HATS, 1, 7, 1, 0, 0, st0, st1)
                          && WordClosure(NIL, HATS, 1, 7, 0, st1, st)
      ensures 7 !in st
    {
      OneRound(st0, st1, st);
    }
  }

  lemma {:induction false} HatsCanBeSearched()
    ensures RangeOk(HATS, 1, 7)
  {
  }
}
