/** Where `fast` misses the leftmost start: an example on compiled code (include/regex/engine.c, lines
    201-219 and 727-728). For which expressions it does not is in module Reentry. */
module LeftmostLimit {
  import opened Strip
  import opened Text
  import opened Regex
  import opened Paths
  import opened Simulation
  import opened Matching
  import opened Engine
  import opened Syntax
  import opened CodeGen
  import opened Compile
  import opened Levels
  import opened Must
  import Captures

  /** (a*|b)c */
  const EXPR: Expr := Cat(Group(1, Union(Star(Sym(Chr('a'))), One(Sym(Chr('b'))))), Sym(Chr('c')))

  const ALTS: Ops := [OEnd, OLParen(1), OCh_(7), OQuest_(4), OPlus_(2), OChar('a'), O_Plus(2), O_Quest(4), OOr1(6),
                      OOr2(2), OChar('b'), O_Ch(3), ORParen(1), OChar('c'), OEnd]

  const BC := Subject("bc", 0, 2, false, false, false, [])

  /** What regcomp leaves, with the literal findmust has found. */
  ghost predicate Struct(g: Guts) {
    g == Guts(ALTS, [], false, false, 0, 14, 0, 0, g.must, 1, false, 1)
    && var u := ScanStrip(ALTS, 1, [], []); g.must == if u == [] then None else Some(u)
  }

  lemma {:induction false} CodeIsAlts()
    ensures Code(EXPR) == ALTS
  {
    hide Layout, LayoutAlts, Emit, EmitBranches, Code, Form, UnionForm, QuestForm, PlusForm, OptForm;
    Shapes(EXPR);
    Shapes(EXPR.l);
    Shapes(EXPR.r);
    UnionCode();
    assert Form(EXPR) == ALTS[1..14];
    CodeIsForm(EXPR);
  }

  lemma {:induction false} UnionCode()
    ensures Form(EXPR.l.e) == ALTS[2..12]
  {
    hide Layout, LayoutAlts, Emit, EmitBranches;
    var a, b := Sym(Chr('a')), Sym(Chr('b'));
    Shapes(EXPR.l.e);
    Shapes(Star(a));
    Shapes(a);
    Shapes(b);
    BranchForm(b);
    assert Form(Star(a)) == [OQuest_(4), OPlus_(2), OChar('a'), O_Plus(2), O_Quest(4)];
  }

  lemma {:induction false} BranchForm(e: Expr)
    ensures LayoutAlts(EmitBranches(One(e))) == [OOr2(|Form(e)| + 1)] + Form(e) + [O_Ch(|Form(e)| + 2)]
  {
    hide Layout, LayoutAlts, Emit;
    LastLayout(Emit(e, Eps));
  }

  lemma {:induction false} AltsIsCompiled(g: Guts)
    requires Struct(g)
    ensures Compiled(g, Emit(EXPR, Eps))
  {
    AltsAreLaid();
    hide Compiled, Emit, Code, Depth, Laid, Len, ScanStrip, Mandatory;
    CodeIsAlts();
    OneLoop();
    ScanIsMandatory(ALTS, 1, Emit(EXPR, Eps));
    CodeIsCompiled(EXPR, g);
  }

  lemma {:induction false} AltsAreLaid()
    ensures Laid(ALTS, 1, Emit(EXPR, Eps)) && Len(Emit(EXPR, Eps)) == 13
  {
    hide Laid, Len, Emit, Code;
    CodeIsAlts();
    CodeIsLaid(EXPR);
  }

  lemma {:induction false} OneLoop()
    ensures Depth(Emit(EXPR, Eps)) == 1
  {
    var a, b := Leaf(Chr('a'), Eps), Leaf(Chr('b'), Eps);
    var k := Leaf(RParen(1), Leaf(Chr('c'), Eps));
    assert Emit(EXPR, Eps) == Leaf(LParen(1), Choice(Quest(Plus(a, Eps), Eps), Last(b), k));
    hide Emit;
    assert Depth(Plus(a, Eps)) == 1 && Depth(Quest(Plus(a, Eps), Eps)) == 1;
    assert DepthAlts(Last(b)) == 0 && Depth(k) == 0;
  }

  ghost const BEGUN: set<nat> := {1, 2, 3, 4, 5, 7, 8, 9, 10, 11, 12, 13}

  lemma {:induction false} Chains()
    ensures ChEnd(ALTS, 9) == Some(11)
  {
    assert ChEnd(ALTS, 11) == Some(11);
  }

  lemma {:induction false} BegunIn(X: set<nat>)
    requires EpsClosed(ALTS, 1, 14, X) && 1 in X
    ensures BEGUN <= X
  {
    hide ChEnd;
    Chains();
    assert EpsEdge(ALTS, 1, 2) && EpsEdge(ALTS, 2, 3) && EpsEdge(ALTS, 2, 9) && EpsEdge(ALTS, 3, 4)
      && EpsEdge(ALTS, 3, 7);
    assert EpsEdge(ALTS, 4, 5) && EpsEdge(ALTS, 7, 8) && EpsEdge(ALTS, 8, 11) && EpsEdge(ALTS, 9, 10);
    assert EpsEdge(ALTS, 11, 12) && EpsEdge(ALTS, 12, 13);
  }

  lemma {:induction false} BegunIsFresh()
    ensures IsFresh(ALTS, 1, 14, BEGUN)
  {
    hide ChEnd;
    Chains();
    assert EpsClosed(ALTS, 1, 14, BEGUN);
    hide EpsClosed;
    forall X | EpsClosed(ALTS, 1, 14, X) && 1 in X
      ensures BEGUN <= X
    {
      BegunIn(X);
    }
  }

  /** After the b nothing looks different from a fresh start. */
  lemma {:induction false} ColdAfterB()
    ensures Cold(BC, ALTS, 1, 14, 0, 2, 1)
  {
    hide IsFresh, Reach, Fires, Go, BEGUN;
    BegunIsFresh();
    forall c, d, F | Reach(BC, ALTS, 1, 14, 0, 2, c) && Edge(BC, ALTS, 1, 14, c, d) && IsFresh(ALTS, 1, 14, F)
                     && c.at.p < 1 && d.at.p == 1
      ensures d.s in F
    {
      CharMove(BC, ALTS, 1, 14, c, d);
      OnlyTheB(c.s);
      SameFresh(F);
    }
  }

  lemma {:induction false} SameFresh(F: set<nat>)
    requires IsFresh(ALTS, 1, 14, F)
    ensures 11 in F
  {
    hide EpsClosed;
    BegunIn(F);
  }

  lemma {:induction false} OnlyTheB(s: nat)
    requires 1 <= s < 14 && Fires([], ALTS[s], Ch('b'))
    ensures s == 10
  {
  }

  lemma {:induction false} MatchesAll()
    ensures Path(BC, ALTS, 1, 14, 0, 2) && Reach(BC, ALTS, 1, 14, 0, 2, Conf(13, At(1, false)))
  {
    hide Reach, ChEnd;
    var a, b, c := At(0, false), At(1, false), At(2, false);
    StartReached(a);
    ReachStep(BC, ALTS, 1, 14, 0, 0, Conf(1, a), Conf(2, a));
    ReachStep(BC, ALTS, 1, 14, 0, 0, Conf(2, a), Conf(9, a));
    ReachStep(BC, ALTS, 1, 14, 0, 0, Conf(9, a), Conf(10, a));
    ReachStep(BC, ALTS, 1, 14, 0, 0, Conf(10, a), Conf(11, b));
    ReachStep(BC, ALTS, 1, 14, 0, 0, Conf(11, b), Conf(12, b));
    ReachStep(BC, ALTS, 1, 14, 0, 0, Conf(12, b), Conf(13, b));
    ReachStep(BC, ALTS, 1, 14, 0, 0, Conf(13, b), Conf(14, c));
    ReachWider(BC, ALTS, 1, 14, 0, 0, 0, 2, Conf(13, b));
  }

  lemma {:induction false} StartReached(a: At)
    requires a == At(0, false)
    ensures Reach(BC, ALTS, 1, 14, 0, 0, Conf(1, a))
  {
  }

  lemma {:induction false} HotAfterC()
    ensures !Cold(BC, ALTS, 1, 14, 0, 2, 2)
  {
    hide IsFresh, Reach, Path, Edge, EpsEdge;
    MatchesAll();
    BegunIsFresh();
    var c, d := Conf(13, At(1, false)), Conf(14, At(2, false));
    CharEdge(BC, ALTS, 1, 14, 13, 1, false);
    assert Reach(BC, ALTS, 1, 14, 0, 2, c) && Edge(BC, ALTS, 1, 14, c, d) && d.s !in BEGUN;
  }

  lemma {:induction false} NothingShorter(i: nat, j: nat)
    requires j < 2
    ensures !Path(BC, ALTS, 1, 14, i, j)
  {
    hide ChEnd;
    Chains();
    var X := iset c: Conf | c.s <= 13 || c.at.p >= 2;
    assert Closed(BC, ALTS, 1, 14, X) && Starts(1, i, i, X);
  }

  /** From the c on the expression matches the c alone. */
  lemma {:induction false} MatchesTheC()
    ensures Path(BC, ALTS, 1, 14, 1, 2)
  {
    hide Reach, ChEnd;
    Chains();
    var b, c := At(1, false), At(2, false);
    CStartReached(b);
    ReachStep(BC, ALTS, 1, 14, 1, 1, Conf(1, b), Conf(2, b));
    ReachStep(BC, ALTS, 1, 14, 1, 1, Conf(2, b), Conf(3, b));
    ReachStep(BC, ALTS, 1, 14, 1, 1, Conf(3, b), Conf(7, b));
    ReachStep(BC, ALTS, 1, 14, 1, 1, Conf(7, b), Conf(8, b));
    ReachStep(BC, ALTS, 1, 14, 1, 1, Conf(8, b), Conf(11, b));
    ReachStep(BC, ALTS, 1, 14, 1, 1, Conf(11, b), Conf(12, b));
    ReachStep(BC, ALTS, 1, 14, 1, 1, Conf(12, b), Conf(13, b));
    ReachStep(BC, ALTS, 1, 14, 1, 1, Conf(13, b), Conf(14, c));
  }

  lemma {:induction false} CStartReached(b: At)
    requires b == At(1, false)
    ensures Reach(BC, ALTS, 1, 14, 1, 1, Conf(1, b))
  {
  }

  lemma {:induction false} BothMatch(m: Matcher)
    requires m.g.strip == ALTS && m.g.firststate == 0 && m.g.laststate == 14 && m.x == BC && Whole(m, Emit(EXPR, Eps))
    ensures Spans(BC, Emit(EXPR, Eps), 0, 2) && Spans(BC, Emit(EXPR, Eps), 1, 2)
  {
    hide Spans, Path, Laid, Len, Emit;
    MatchesAll();
    MatchesTheC();
    PathSpan(m, Emit(EXPR, Eps), 0, 2);
    PathSpan(m, Emit(EXPR, Eps), 1, 2);
  }

  /** `(a*|b)c` matches all of "bc", but fast lets attempts begin only from the c on: after the b the
      states are the fresh ones, and it takes the attempt under way for a new one. What is reported
      is the c alone. */
  method LeftmostMissed() returns (start: nat, end: nat)
    ensures Spans(BC, Emit(EXPR, Eps), 0, 2) && start == 1 && end == 2
  {
    hide Path, Cold, Reach, NoReentry, Spans, Laid, Len, Emit, Captures.LongestEnd, Captures.Plain, Counted,
      Scannable, ScanStrip;
    AltsAreLaid();
    CodeIsScannable(ALTS, 1, Emit(EXPR, Eps));
    var must := FindMust(ALTS, 1);
    var g := Guts(ALTS, [], false, false, 0, 14, 0, 0, must, 1, false, 1);
    AltsIsCompiled(g);
    var m := new Matcher(g, BC);
    assert Whole(m, Emit(EXPR, Eps));
    m.CanSearchIt(m.Gf(), m.Gl(), Emit(EXPR, Eps));
    var r := m.Fast(0, 2, m.Gf(), m.Gl());
    MatchesAll();
    ColdAfterB();
    HotAfterC();
    forall i, j | j < 2
      ensures !Path(BC, ALTS, 1, 14, i, j)
    {
      NothingShorter(i, j);
    }
    assert r == Some(3) && m.coldp == 1;
    BothMatch(m);
    end := FindStart(m, Emit(EXPR, Eps));
    start := m.coldp;
  }
}
