/** Backtracking need not come to an end where a + body may be empty (include/regex/engine.c, lines 629-639): an
    example on compiled code, for which no bound on the depth of calls is enough. */
module Endless {
  import opened Strip
  import opened Text
  import opened Regex
  import opened Captures
  import opened Backtrack
  import opened BackrefSound
  import opened Bounds
  import opened Matching
  import opened Syntax
  import CodeGen
  import Thompson

  /** \(b\)*\(a*\)*\1 */
  const FRONT: Expr := Cat(Star(Group(1, Sym(Chr('b')))), Star(Group(2, Star(Sym(Chr('a'))))))
  const ENDLESS: Re := Emit(FRONT, Back(1, Leaf(Chr('b'), Eps), Eps))

  const FIRST: Ops := [OQuest_(6), OPlus_(4), OLParen(1), OChar('b'), ORParen(1), O_Plus(4), O_Quest(6)]

  const SECOND: Ops := [OQuest_(10), OPlus_(8), OLParen(2), OQuest_(4), OPlus_(2), OChar('a'), O_Plus(2), O_Quest(4),
                        ORParen(2), O_Plus(8), O_Quest(10)]

  const CODE: Ops := [OEnd] + FIRST + SECOND + [OBack_(1), OChar('b'), O_Back(1), OEnd]

  const AB := Subject("ab", 0, 2, false, false, false, [])

  /** A run from `ss` is either cut short or gives `v`. */
  ghost predicate MayGive(ss: nat, sp: nat, lev: nat, m: Memory, v: Trial)
    requires sp <= 2
  {
    forall n: nat :: Upto(n, ss, sp, lev, m) == None || Upto(n, ss, sp, lev, m) == Some(v)
  }

  ghost function Upto(n: nat, ss: nat, sp: nat, lev: nat, m: Memory): Option<Trial>
    requires sp <= 2
  {
    RunFor(n, AB, CODE, 2, 22, ss, sp, lev, m)
  }

  lemma {:induction false} EasyMay(ss: nat, sp: nat, lev: nat, m: Memory, v: Trial)
    requires ss < 22 && sp <= 2
    requires match EasyStep(AB, CODE, 2, ss, sp)
             case No => v == Trial(None, m)
             case To(t, u) => MayGive(t, u, lev, m, v)
             case Hard => false
    ensures MayGive(ss, sp, lev, m, v)
  {
    hide EasyStep, BranchesFor;
    forall n: nat
      ensures Upto(n, ss, sp, lev, m) == None || Upto(n, ss, sp, lev, m) == Some(v)
    {
      if n > 0 {
        match EasyStep(AB, CODE, 2, ss, sp)
        case To(t, u) => assert Upto(n - 1, t, u, lev, m) == None || Upto(n - 1, t, u, lev, m) == Some(v);
        case _ =>
      }
    }
  }

  lemma {:induction false} QuestMay(ss: nat, sp: nat, lev: nat, m: Memory, mid: Memory, v: Trial)
    requires ss < 22 && sp <= 2 && CODE[ss].OQuest_? && MayGive(ss + 1, sp, lev, m, Trial(None, mid))
    requires MayGive(ss + CODE[ss].fwd + 1, sp, lev, mid, v)
    ensures MayGive(ss, sp, lev, m, v)
  {
    hide BranchesFor;
    forall n: nat
      ensures Upto(n, ss, sp, lev, m) == None || Upto(n, ss, sp, lev, m) == Some(v)
    {
      if n > 0 {
        var w := Upto(n - 1, ss + 1, sp, lev, m);
        var u := Upto(n - 1, ss + CODE[ss].fwd + 1, sp, lev, mid);
        assert w == None || w == Some(Trial(None, mid));
        assert u == None || u == Some(v);
      }
    }
  }

  lemma {:induction false} EnterMay(ss: nat, sp: nat, lev: nat, m: Memory, v: Trial)
    requires ss < 22 && sp <= 2 && CODE[ss].OPlus_?
    requires MayGive(ss + 1, sp, lev + 1, m.(last := Put(m.last, lev + 1, sp)), v)
    ensures MayGive(ss, sp, lev, m, v)
  {
    hide BranchesFor, Put;
    forall n: nat
      ensures Upto(n, ss, sp, lev, m) == None || Upto(n, ss, sp, lev, m) == Some(v)
    {
      if n > 0 {
        var u := Upto(n - 1, ss + 1, sp, lev + 1, m.(last := Put(m.last, lev + 1, sp)));
        assert u == None || u == Some(v);
      }
    }
  }

  lemma {:induction false} LeaveMay(ss: nat, sp: nat, lev: nat, m: Memory, v: Trial)
    requires ss < 22 && sp <= 2 && CODE[ss].O_Plus? && 0 < lev < |m.last| && sp == m.last[lev] && CODE[ss].back <= ss
    requires MayGive(ss + 1, sp, lev - 1, m, v)
    ensures MayGive(ss, sp, lev, m, v)
  {
    hide BranchesFor;
    forall n: nat
      ensures Upto(n, ss, sp, lev, m) == None || Upto(n, ss, sp, lev, m) == Some(v)
    {
      if n > 0 {
        var u := Upto(n - 1, ss + 1, sp, lev - 1, m);
        assert u == None || u == Some(v);
      }
    }
  }

  lemma {:induction false} AgainMay(ss: nat, sp: nat, lev: nat, m: Memory, mid: Memory, v: Trial)
    requires ss < 22 && sp <= 2 && CODE[ss].O_Plus? && 0 < lev < |m.last| && sp != m.last[lev] && CODE[ss].back <= ss
    requires MayGive(ss - CODE[ss].back + 1, sp, lev, m.(last := Put(m.last, lev, sp)), Trial(None, mid))
    requires MayGive(ss + 1, sp, lev - 1, mid, v)
    ensures MayGive(ss, sp, lev, m, v)
  {
    hide BranchesFor, Put;
    forall n: nat
      ensures Upto(n, ss, sp, lev, m) == None || Upto(n, ss, sp, lev, m) == Some(v)
    {
      if n > 0 {
        var w := Upto(n - 1, ss - CODE[ss].back + 1, sp, lev, m.(last := Put(m.last, lev, sp)));
        var u := Upto(n - 1, ss + 1, sp, lev - 1, mid);
        assert w == None || w == Some(Trial(None, mid));
        assert u == None || u == Some(v);
      }
    }
  }

  /** A parenthesis, with what it did undone. */
  lemma {:induction false} ParenMay(ss: nat, sp: nat, lev: nat, m: Memory, mid: Memory)
    requires ss < 22 && sp <= 2 && (CODE[ss].OLParen? || CODE[ss].ORParen?) && CODE[ss].paren < |m.pm|
    requires MayGive(ss + 1, sp, lev, m.(pm := Set(CODE[ss], m.pm, sp)), Trial(None, mid))
    ensures MayGive(ss, sp, lev, m, Trial(None, mid.(pm := Reset(CODE[ss], m.pm, mid.pm))))
  {
    hide BranchesFor;
    var v := Trial(None, mid.(pm := Reset(CODE[ss], m.pm, mid.pm)));
    forall n: nat
      ensures Upto(n, ss, sp, lev, m) == None || Upto(n, ss, sp, lev, m) == Some(v)
    {
      if n > 0 {
        var u := Upto(n - 1, ss + 1, sp, lev, m.(pm := Set(CODE[ss], m.pm, sp)));
        assert u == None || u == Some(Trial(None, mid));
      }
    }
  }

  function Reset(op: Sop, before: seq<Span>, pm: seq<Span>): seq<Span>
    requires (op.OLParen? || op.ORParen?) && op.paren < |before|
  {
    if op.OLParen? then SetSo(pm, op.paren, before[op.paren].so) else SetEo(pm, op.paren, before[op.paren].eo)
  }

  /** The first group is unset, whatever the second and lastpos are. */
  function M(p: Span, c2: Span, l0: nat, l1: nat, l2: nat): Memory { Memory([p, UNSET, c2], [l0, l1, l2]) }

  lemma {:induction false} BackMay(sp: nat, m: Memory)
    requires sp <= 2 && |m.pm| == 3 && m.pm[1] == UNSET
    ensures MayGive(19, sp, 0, m, Trial(None, m)) && MayGive(18, sp, 0, m, Trial(None, m))
  {
    hide FindBack, BranchesFor;
    assert !Repeats(AB, 2, sp, m.pm[1]);
    assert MayGive(19, sp, 0, m, Trial(None, m));
    hide Upto;
    EasyMay(18, sp, 0, m, Trial(None, m));
  }

  /** A pass from behind the a: nothing more to take, and nothing follows. */
  lemma {:induction false} SecondPass(p: Span, c2: Span, l0: nat, l2: nat)
    ensures MayGive(10, 1, 1, M(p, c2, l0, 1, l2), Trial(None, M(p, c2, l0, 1, 1)))
  {
    hide MayGive, Upto;
    var s1, s2 := Span(1, c2.eo), Span(1, 1);
    var m0, m2, m3, m4 := M(p, c2, l0, 1, l2), M(p, s1, l0, 1, l2), M(p, s1, l0, 1, 1), M(p, s2, l0, 1, 1);
    BackMay(1, m4);
    LeaveMay(17, 1, 1, m4, Trial(None, m4));
    assert m3.(pm := Set(CODE[16], m3.pm, 1)) == m4 && m4.(pm := Reset(CODE[16], m3.pm, m4.pm)) == m3;
    ParenMay(16, 1, 1, m3, m4);
    EasyMay(13, 1, 2, m3, Trial(None, m3));
    assert m2.(last := Put(m2.last, 2, 1)) == m3;
    EnterMay(12, 1, 1, m2, Trial(None, m3));
    QuestMay(11, 1, 1, m2, m3, Trial(None, m3));
    assert m0.(pm := Set(CODE[10], m0.pm, 1)) == m2 && m3.(pm := Reset(CODE[10], m0.pm, m3.pm)) == M(p, c2, l0, 1, 1);
    ParenMay(10, 1, 1, m0, m3);
  }

  /** With a* taking the a: it fails, and the place behind the a stays noted. */
  lemma {:induction false} TakingA(p: Span, c2: Span, l0: nat, l2: nat)
    ensures MayGive(12, 0, 1, M(p, c2, l0, 0, l2), Trial(None, M(p, c2, l0, 1, 1)))
  {
    hide MayGive, Upto;
    var s := Span(c2.so, 1);
    var m0, m1, m2 := M(p, c2, l0, 0, l2), M(p, c2, l0, 0, 0), M(p, c2, l0, 0, 1);
    var n0, n1 := M(p, s, l0, 0, 1), M(p, s, l0, 1, 1);
    SecondPass(p, s, l0, 1);
    BackMay(1, n1);
    assert n0.(last := Put(n0.last, 1, 1)) == n1;
    AgainMay(17, 1, 1, n0, n1, Trial(None, n1));
    assert m2.(pm := Set(CODE[16], m2.pm, 1)) == n0 && n1.(pm := Reset(CODE[16], m2.pm, n1.pm)) == M(p, c2, l0, 1, 1);
    ParenMay(16, 1, 1, m2, n1);
    EasyMay(15, 1, 1, m2, Trial(None, M(p, c2, l0, 1, 1)));
    EasyMay(13, 1, 2, m2, Trial(None, m2));
    assert m1.(last := Put(m1.last, 2, 1)) == m2 && m0.(last := Put(m0.last, 2, 0)) == m1;
    AgainMay(14, 1, 2, m1, m2, Trial(None, M(p, c2, l0, 1, 1)));
    EasyMay(13, 0, 2, m1, Trial(None, M(p, c2, l0, 1, 1)));
    EnterMay(12, 0, 1, m0, Trial(None, M(p, c2, l0, 1, 1)));
  }

  /** With a* empty: the place noted is not this one, and the loop begins the same pass again. */
  lemma {:induction false} RoundAndRound(n: nat, p: Span, c2: Span, l0: nat, l2: nat)
    ensures Upto(n, 10, 0, 1, M(p, c2, l0, 0, l2)) == None
    decreases n
  {
    hide Upto, MayGive;
    if n == 0 {
      NotAtAll(10, M(p, c2, l0, 0, l2));
    } else {
      var m, s := M(p, c2, l0, 0, l2), Span(0, c2.eo);
      assert m.(pm := SetSo(m.pm, 2, 0)) == M(p, s, l0, 0, l2);
      FromQuest(n - 1, p, s, l0, l2);
      OpenStep(n, m);
    }
  }

  lemma {:induction false} NotAtAll(ss: nat, m: Memory)
    ensures Upto(0, ss, 0, 1, m) == None
  {
  }

  lemma {:induction false} OpenStep(n: nat, m: Memory)
    requires n > 0 && |m.pm| == 3 && Upto(n - 1, 11, 0, 1, m.(pm := SetSo(m.pm, 2, 0))) == None
    ensures Upto(n, 10, 0, 1, m) == None
  {
    hide BranchesFor, SetSo;
  }

  lemma {:induction false} FromQuest(n: nat, p: Span, s: Span, l0: nat, l2: nat)
    requires s.so == 0
    ensures Upto(n, 11, 0, 1, M(p, s, l0, 0, l2)) == None
    decreases n
  {
    hide Upto, MayGive;
    if n == 0 {
      NotAtAll(11, M(p, s, l0, 0, l2));
    } else {
      TakingA(p, s, l0, l2);
      FromEmpty(n - 1, p, s, l0);
      QuestStep(n, M(p, s, l0, 0, l2), M(p, s, l0, 1, 1));
    }
  }

  lemma {:induction false} QuestStep(n: nat, m: Memory, mid: Memory)
    requires n > 0 && MayGive(12, 0, 1, m, Trial(None, mid)) && Upto(n - 1, 16, 0, 1, mid) == None
    ensures Upto(n, 11, 0, 1, m) == None
  {
    hide BranchesFor;
    var w := Upto(n - 1, 12, 0, 1, m);
    assert w == None || w == Some(Trial(None, mid));
  }

  /** Behind a* that took nothing, with another place noted. */
  lemma {:induction false} FromEmpty(n: nat, p: Span, s: Span, l0: nat)
    requires s.so == 0
    ensures Upto(n, 16, 0, 1, M(p, s, l0, 1, 1)) == None
    decreases n
  {
    hide Upto;
    var m, c := M(p, s, l0, 1, 1), M(p, Span(0, 0), l0, 1, 1);
    if n == 0 {
      NotAtAll(16, m);
    } else if n == 1 {
      NotAtAll(17, c);
      assert m.(pm := SetEo(m.pm, 2, 0)) == c;
      CloseStep(n, m);
    } else {
      RoundAndRound(n - 2, p, Span(0, 0), l0, 1);
      assert c.(last := Put(c.last, 1, 0)) == M(p, Span(0, 0), l0, 0, 1);
      AgainStep(n - 1, c);
      assert m.(pm := SetEo(m.pm, 2, 0)) == c;
      CloseStep(n, m);
    }
  }

  lemma {:induction false} CloseStep(n: nat, m: Memory)
    requires n > 0 && |m.pm| == 3 && Upto(n - 1, 17, 0, 1, m.(pm := SetEo(m.pm, 2, 0))) == None
    ensures Upto(n, 16, 0, 1, m) == None
  {
    hide BranchesFor, SetEo;
  }

  lemma {:induction false} AgainStep(n: nat, m: Memory)
    requires n > 0 && |m.last| == 3 && m.last[1] == 1 && Upto(n - 1, 10, 0, 1, m.(last := Put(m.last, 1, 0))) == None
    ensures Upto(n, 17, 0, 1, m) == None
  {
    hide BranchesFor, Put;
  }

  /** The first loop finds no b. */
  lemma {:induction false} NoFirst(p: Span, l0: nat, l1: nat, l2: nat)
    ensures MayGive(2, 0, 0, M(p, UNSET, l0, l1, l2), Trial(None, M(p, UNSET, l0, 0, l2)))
  {
    hide MayGive, Upto;
    var m0, m := M(p, UNSET, l0, l1, l2), M(p, UNSET, l0, 0, l2);
    var o := m.(pm := SetSo(m.pm, 1, 0));
    EasyMay(4, 0, 1, o, Trial(None, o));
    assert o.(pm := Reset(CODE[3], m.pm, o.pm)) == m;
    ParenMay(3, 0, 1, m, o);
    assert m0.(last := Put(m0.last, 1, 0)) == m;
    EnterMay(2, 0, 0, m0, Trial(None, m));
  }

  /** However deep calls may be, the run is cut short. */
  lemma {:induction false} NeverEnds(n: nat, mem: Memory)
    requires Clean(mem.pm, 2) && |mem.last| == 3
    ensures RunFor(n, AB, CODE, 2, 22, 1, 0, 0, mem) == None
  {
    hide MayGive, BranchesFor;
    var p, l0, l1, l2 := mem.pm[0], mem.last[0], mem.last[1], mem.last[2];
    assert mem == M(p, UNSET, l0, l1, l2);
    NoFirst(p, l0, l1, l2);
    FromSecond(if n > 0 then n - 1 else 0, M(p, UNSET, l0, 0, l2), p, l0, l2);
    FirstStep(n, mem, M(p, UNSET, l0, 0, l2));
  }

  lemma {:induction false} FirstStep(n: nat, m: Memory, mid: Memory)
    requires MayGive(2, 0, 0, m, Trial(None, mid)) && (n > 0 ==> Upto(n - 1, 8, 0, 0, mid) == None)
    ensures Upto(n, 1, 0, 0, m) == None
  {
    hide BranchesFor;
    if n > 0 {
      var w := Upto(n - 1, 2, 0, 0, m);
      assert w == None || w == Some(Trial(None, mid));
    }
  }

  lemma {:induction false} FromSecond(n: nat, m: Memory, p: Span, l0: nat, l2: nat)
    requires m == M(p, UNSET, l0, 0, l2)
    ensures Upto(n, 8, 0, 0, m) == None
  {
    hide BranchesFor;
    assert m.(last := Put(m.last, 1, 0)) == m;
    if n >= 2 { RoundAndRound(n - 2, p, UNSET, l0, l2); }
    assert n >= 1 ==> Upto(n - 1, 9, 0, 0, m) == None;
  }

  // ----- which a search comes to -----

  lemma {:induction false} FirstCode()
    ensures CodeGen.Form(FRONT.l) == FIRST
  {
    hide Layout, Emit, CodeGen.Form;
    var b := Sym(Chr('b'));
    CodeGen.Shapes(b);
    CodeGen.Shapes(Group(1, b));
    assert CodeGen.Form(Group(1, b)) == [OLParen(1), OChar('b'), ORParen(1)];
    CodeGen.Shapes(FRONT.l);
    assert FRONT.l == Star(Group(1, b));
  }

  lemma {:induction false} SecondCode()
    ensures CodeGen.Form(FRONT.r) == SECOND
  {
    hide Layout, Emit, CodeGen.Form;
    var a := Sym(Chr('a'));
    CodeGen.Shapes(a);
    CodeGen.Shapes(Star(a));
    CodeGen.Shapes(Group(2, Star(a)));
    assert CodeGen.Form(Star(a)) == [OQuest_(4), OPlus_(2), OChar('a'), O_Plus(2), O_Quest(4)];
    CodeGen.Shapes(FRONT.r);
    assert FRONT.r == Star(Group(2, Star(a)));
  }

  /** The code is what regcomp emits. */
  lemma {:induction false} CodeIsEndless()
    ensures Laid(CODE, 1, ENDLESS) && Len(ENDLESS) == 21
  {
    hide Laid, Len, Layout, Emit, CodeGen.Form;
    var back := Back(1, Leaf(Chr('b'), Eps), Eps);
    FirstCode();
    SecondCode();
    CodeGen.Shapes(FRONT);
    CodeGen.LayoutSplits(FRONT, back);
    CodeGen.NoLayout();
    Thompson.LayoutOf(Leaf(Chr('b'), Eps));
    Thompson.LayoutOf(back);
    assert Layout(back) == CODE[19..22];
    assert CODE[1..22] == FIRST + SECOND + CODE[19..22];
    Thompson.LayoutOf(ENDLESS);
    Thompson.LayoutIsLaid(CODE, 1, ENDLESS);
  }

  lemma {:induction false} FrontMatches()
    ensures Lang(AB, FRONT, Pos(0), Pos(1))
  {
    var a, b := Pos(0), Pos(1);
    var as0 := Star(Sym(Chr('a')));
    assert Lang(AB, Sym(Chr('a')), a, b);
    hide Lang;
    CodeGen.OneTime(AB, Sym(Chr('a')), a, b);
    Some1Lang(AB, Sym(Chr('a')), 1, a, b);
    GroupLang(AB, 2, as0, a, b);
    CodeGen.OneTime(AB, Group(2, as0), a, b);
    Some1Lang(AB, Group(2, as0), 1, a, b);
    StarLang(AB, FRONT.l.e, a, a);
    CatLang(AB, FRONT.l, FRONT.r, a, a, b);
  }

  function Pos(p: nat): At { Text.At(p, false) }

  lemma {:induction false} AllMatches()
    ensures Spans(AB, ENDLESS, 0, 2)
  {
    var a, b, c := Pos(0), Pos(1), Pos(2);
    var back := Back(1, Leaf(Chr('b'), Eps), Eps);
    FrontMatches();
    BackMatches();
    hide Lang, Emit, Match;
    assert Means(AB, FRONT, back, a, c);
    EmitMeans(AB, FRONT, back, a, c);
  }

  lemma {:induction false} BackMatches()
    ensures Match(AB, Back(1, Leaf(Chr('b'), Eps), Eps), Pos(1), Pos(2))
  {
    assert Match(AB, Eps, Pos(2), Pos(2));
    assert Match(AB, Leaf(Chr('b'), Eps), Pos(1), Pos(2));
  }

  /** The code of `\(b\)*\(a*\)*\1` matches all of "ab" if back references are left out of account, so that
      is where matcher begins to backtrack; and no depth of calls is enough for it. */
  lemma {:induction false} NoDepthIsEnough(mem: Memory)
    requires Clean(mem.pm, 2) && |mem.last| == 3
    ensures Laid(CODE, 1, ENDLESS) && 1 + Len(ENDLESS) == 22 && LongestEnd(AB, ENDLESS, 0, AB.end) == Some(2)
    ensures !LoopsConsume(CODE) && forall n :: RunFor(n, AB, CODE, 2, 22, 1, 0, 0, mem) == None
  {
    CodeIsEndless();
    AllMatches();
    hide Laid, Len, Emit, Spans, RunFor, LoopsConsume;
    forall n
      ensures RunFor(n, AB, CODE, 2, 22, 1, 0, 0, mem) == None
    {
      NeverEnds(n, mem);
    }
    if LoopsConsume(CODE) {
      RunEnds(AB, CODE, 2, 22, 1, 0, 0, mem);
    }
  }
}
