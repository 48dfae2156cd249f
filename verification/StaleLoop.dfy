/** How backtracking can miss a match (include/regex/engine.c, lines 617-639): an example on compiled code. A way
    that failed leaves in lastpos the place of another loop's last pass, and a later way finds it at the end of
    a pass that did take text, and leaves its loop for good. */
module StaleLoop {
  import opened Strip
  import opened Text
  import opened Regex
  import opened Simulation
  import opened Captures
  import opened Backtrack
  import opened BackrefSound
  import opened BackrefExact
  import opened Consuming
  import opened Levels
  import opened Matching
  import opened Must
  import opened Syntax
  import opened Groups
  import opened Compile
  import opened Reentry
  import opened Replay
  import Thompson

  // ----- the expression -----

  /** (xa*(ab)*)\{1,\}b\{1,\}, its groups being the second and the third */
  const TAIL: Expr := Cat(Some1(Group(2, BODY)), Some1(Sym(Chr('b'))))

  const BODY: Expr := Cat(Sym(Chr('x')), Cat(Star(Sym(Chr('a'))), Star(Group(3, Cat(Sym(Chr('a')), Sym(Chr('b')))))))

  /** \(\)\1, which any text has, and then that. */
  const STALE: Re := Leaf(LParen(1), Leaf(RParen(1), Back(1, Eps, Emit(TAIL, Eps))))

  const CODE: Ops := [OEnd,
    OLParen(1), ORParen(1), OBack_(1), O_Back(1),
    OPlus_(17), OLParen(2), OChar('x'),
    OQuest_(4), OPlus_(2), OChar('a'), O_Plus(2), O_Quest(4),
    OQuest_(7), OPlus_(5), OLParen(3), OChar('a'), OChar('b'), ORParen(3), O_Plus(5), O_Quest(7),
    ORParen(2), O_Plus(17),
    OPlus_(2), OChar('b'), O_Plus(2),
    OEnd]

  const XABXB := Subject("xabxb", 0, 5, false, false, false, [])

  lemma {:induction false} BodyCode()
    ensures CodeGen.Form(BODY) == CODE[7..21]
  {
    hide Layout, Emit, CodeGen.Form;
    var a, b := Sym(Chr('a')), Sym(Chr('b'));
    CodeGen.Shapes(a);
    CodeGen.Shapes(b);
    CodeGen.Shapes(Sym(Chr('x')));
    CodeGen.Shapes(Star(a));
    CodeGen.Shapes(Cat(a, b));
    CodeGen.Shapes(Group(3, Cat(a, b)));
    CodeGen.Shapes(Star(Group(3, Cat(a, b))));
    CodeGen.Shapes(BODY);
    CodeGen.Shapes(BODY.r);
  }

  lemma {:induction false} SliceEnds(s: Ops, i: nat, j: nat)
    requires i + 2 <= j <= |s|
    ensures s[i..j] == [s[i]] + s[i + 1..j - 1] + [s[j - 1]]
  {
  }

  lemma {:induction false} LoopCode()
    ensures CodeGen.Form(Some1(Group(2, BODY))) == CODE[5..23]
  {
    hide Layout, Emit, CodeGen.Form;
    BodyCode();
    CodeGen.Shapes(Group(2, BODY));
    CodeGen.Shapes(Some1(Group(2, BODY)));
    assert CODE[5] == OPlus_(17) && CODE[6] == OLParen(2) && CODE[21] == ORParen(2) && CODE[22] == O_Plus(17);
    SliceEnds(CODE, 6, 22);
    SliceEnds(CODE, 5, 23);
    hide CODE;
    assert CodeGen.Form(Group(2, BODY)) == CODE[6..22];
    assert CodeGen.Form(Some1(Group(2, BODY))) == CODE[5..23];
  }

  lemma {:induction false} TailCode()
    ensures CodeGen.Form(TAIL) == CODE[5..26]
  {
    hide Layout, Emit, CodeGen.Form;
    LoopCode();
    var b := Sym(Chr('b'));
    CodeGen.Shapes(b);
    CodeGen.Shapes(Some1(b));
    CodeGen.Shapes(TAIL);
    assert CODE[23] == OPlus_(2) && CODE[24] == OChar('b') && CODE[25] == O_Plus(2);
    assert CodeGen.Form(Some1(b)) == CODE[23..26];
    assert CODE[5..26] == CODE[5..23] + CODE[23..26];
  }

  lemma {:induction false} CodeParts()
    ensures CODE[1..26] == [OLParen(1)] + ([ORParen(1)] + ([OBack_(1), O_Back(1)] + CODE[5..26]))
  {
    var C := [OLParen(1), ORParen(1), OBack_(1), O_Back(1)];
    assert CODE[1] == C[0] && CODE[2] == C[1] && CODE[3] == C[2] && CODE[4] == C[3];
    assert CODE[1..5] == C;
    assert CODE[1..26] == CODE[1..5] + CODE[5..26];
  }

  /** The code is what regcomp emits. */
  lemma {:induction false} CodeIsStale()
    ensures Laid(CODE, 1, STALE) && Len(STALE) == 25
  {
    hide Laid, Len, Layout, Emit;
    TailCode();
    var k := Back(1, Eps, Emit(TAIL, Eps));
    CodeGen.NoLayout();
    Thompson.LayoutOf(k);
    Thompson.LayoutOf(Leaf(RParen(1), k));
    Thompson.LayoutOf(STALE);
    CodeParts();
    assert Layout(k) == [OBack_(1), O_Back(1)] + CODE[5..26];
    assert Layout(STALE) == CODE[1..26];
    Thompson.LayoutIsLaid(CODE, 1, STALE);
  }

  lemma {:induction false} StaleConsumes()
    ensures Consumes(STALE) && LoopsConsume(CODE)
  {
    CodeIsStale();
    TailConsumes();
    hide Laid, Len, Consumes, Emit, LoopsConsume, Within, ChoiceFree, NoChoice;
    StaleIs();
    CodeIsFine(CODE, 1, STALE);
  }

  lemma {:induction false} StaleIs()
    ensures Consumes(Emit(TAIL, Eps)) ==> Consumes(STALE)
    ensures Safe(Emit(TAIL, Eps)) ==> Safe(STALE)
  {
    hide Emit;
    var k := Back(1, Eps, Emit(TAIL, Eps));
    assert Consumes(Emit(TAIL, Eps)) ==> Consumes(k);
    assert Safe(Emit(TAIL, Eps)) ==> Safe(k);
  }

  lemma {:induction false} TailConsumes()
    ensures Consumes(Emit(TAIL, Eps))
  {
    var a := Leaf(Chr('a'), Eps);
    var ab := Leaf(LParen(3), Leaf(Chr('a'), Leaf(Chr('b'), Leaf(RParen(3), Eps))));
    var body := Quest(Plus(a, Eps), Quest(Plus(ab, Eps), Leaf(RParen(2), Eps)));
    assert Emit(TAIL, Eps) == Plus(Leaf(LParen(2), Leaf(Chr('x'), body)), Plus(Leaf(Chr('b'), Eps), Eps));
    hide Emit;
    assert Consumes(ab) && !Nullable(ab) && Consumes(a) && !Nullable(a);
    assert Consumes(body);
  }

  lemma {:induction false} ItsGroups()
    ensures Numbers(TAIL) <= Ids(3) && Numbers(Group(1, Empty)) <= Ids(3) && Proper(TAIL)
  {
    assert Numbers(BODY) == {3};
    assert Numbers(TAIL) == {2, 3};
  }

  lemma {:induction false} StaleIsGrouped()
    ensures WellGrouped(STALE, 3)
  {
    assert Emit(Group(1, Empty), Back(1, Eps, Emit(TAIL, Eps))) == STALE;
    ItsGroups();
    hide Emit, Numbers;
    EmitIsGrouped(Group(1, Empty), Back(1, Eps, Emit(TAIL, Eps)), multiset{}, 3);
    EmitIsGrouped(TAIL, Eps, multiset{}, 3);
  }

  lemma {:induction false} StaleIsSafe()
    ensures NoReentry(CODE, 1, 26)
  {
    hide Laid, Len, Emit, NoReentry, Safe;
    CodeIsStale();
    assert UnionFree(TAIL);
    hide UnionFree;
    EndIsSafe();
    UnionFreeIsSafe(TAIL, Eps);
    StaleIs();
    SafeIsNoReentry(CODE, 1, STALE);
  }

  lemma {:induction false} EndIsSafe()
    ensures Safe(Eps)
  {
  }

  lemma {:induction false} NoAnchors()
    ensures Counted(CODE, 1, 26, 0, 0)
  {
    assert Where(CODE, 1, 26, OBol) == {} && Where(CODE, 1, 26, OEol) == {};
  }

  // ----- what backtracking does from the beginning of the text, held to `stop` -----

  ghost function To(stop: nat): Goal { Goal(XABXB, CODE, stop, 26) }

  ghost predicate Apt(stop: nat) { 3 <= stop <= 5 && To(stop).Valid() }

  /** The second and the third group, and the places of levels 1 and 2. */
  function M(p: Span, l0: nat, c2: Span, c3: Span, l1: nat, l2: nat): Memory {
    Memory([p, Span(0, 0), c2, c3], [l0, l1, l2])
  }

  /** Only [0, 3] is found; otherwise this is left behind. */
  function Done(stop: nat, p: Span, l0: nat, l1: nat, l2: nat): Trial {
    if stop == 3 then Trial(Some(3), M(p, l0, Span(0, 2), UNSET, 3, 2))
      else Trial(None, M(p, l0, Span(0, -1), UNSET, l1, l2))
  }

  /** xa, and b: the loop over b notes its place, 3, at level 1. */
  lemma {:induction false} LastLoop(stop: nat, p: Span, l0: nat, c2: Span, c3: Span, l1: nat, l2: nat)
    requires Apt(stop)
    ensures Gives(To(stop), 23, 2, 0, M(p, l0, c2, c3, l1, l2),
                  Trial(if stop == 3 then Some(3) else None, M(p, l0, c2, c3, 3, l2)))
  {
    hide Gives, LoopsConsume;
    var m1, m2, m3 := M(p, l0, c2, c3, l1, l2), M(p, l0, c2, c3, 2, l2), M(p, l0, c2, c3, 3, l2);
    var v := Trial(if stop == 3 then Some(3) else None, m3);
    StopGives(To(stop), 3, 0, m3);
    EasyGives(To(stop), 24, 3, 1, m3, Trial(None, m3));
    assert m2.(last := Put(m2.last, 1, 3)) == m3 && m1.(last := Put(m1.last, 1, 2)) == m2;
    AgainGives(To(stop), 25, 3, 1, m2, Trial(None, m3), v);
    EasyGives(To(stop), 24, 2, 1, m2, v);
    EnterGives(To(stop), 23, 2, 0, m1, v);
  }

  /** No x here. */
  lemma {:induction false} NoPass(stop: nat, sp: nat, p: Span, l0: nat, c2: Span, c3: Span, l1: nat, l2: nat)
    requires Apt(stop) && (sp == 1 || sp == 2)
    ensures var m := M(p, l0, c2, c3, l1, l2); Gives(To(stop), 6, sp, 1, m, Trial(None, m))
  {
    hide Gives, LoopsConsume;
    var m, n := M(p, l0, c2, c3, l1, l2), M(p, l0, c2.(so := sp), c3, l1, l2);
    EasyGives(To(stop), 7, sp, 1, n, Trial(None, n));
    assert m.(pm := SetSo(m.pm, 2, sp)) == n && n.(pm := SetSo(n.pm, 2, c2.so)) == m;
    OpenGives(To(stop), 6, sp, 1, m, Trial(None, n), Trial(None, m));
  }

  lemma {:induction false} FirstPass(stop: nat, p: Span, l0: nat, l2: nat)
    requires Apt(stop)
    ensures Gives(To(stop), 21, 2, 1, M(p, l0, Span(0, -1), UNSET, 0, l2),
                  if stop == 3 then Trial(Some(3), M(p, l0, Span(0, 2), UNSET, 3, l2))
                  else Trial(None, M(p, l0, Span(0, -1), UNSET, 3, l2)))
  {
    hide Gives, LoopsConsume;
    var c := Span(0, 2);
    var m0, m2 := M(p, l0, c, UNSET, 0, l2), M(p, l0, c, UNSET, 2, l2);
    var v := Trial(if stop == 3 then Some(3) else None, M(p, l0, c, UNSET, 3, l2));
    NoPass(stop, 2, p, l0, c, UNSET, 2, l2);
    LastLoop(stop, p, l0, c, UNSET, 2, l2);
    assert m0.(last := Put(m0.last, 1, 2)) == m2;
    AgainGives(To(stop), 22, 2, 1, m0, Trial(None, m2), v);
    var m, n := M(p, l0, Span(0, -1), UNSET, 0, l2), M(p, l0, Span(0, -1), UNSET, 3, l2);
    assert m.(pm := SetEo(m.pm, 2, 2)) == m0 && v.mem.(pm := SetEo(v.mem.pm, 2, -1)) == n;
    CloseGives(To(stop), 21, 2, 1, m, v, if stop == 3 then v else Trial(None, n));
  }

  /** With a* taking the a. */
  lemma {:induction false} TakingA(stop: nat, p: Span, l0: nat, l2: nat)
    requires Apt(stop)
    ensures Gives(To(stop), 9, 1, 1, M(p, l0, Span(0, -1), UNSET, 0, l2), Done(stop, p, l0, 3, 2))
  {
    hide Gives, LoopsConsume;
    var c, v := Span(0, -1), Done(stop, p, l0, 3, 2);
    var m, m1, m2 := M(p, l0, c, UNSET, 0, l2), M(p, l0, c, UNSET, 0, 1), M(p, l0, c, UNSET, 0, 2);
    var n := M(p, l0, c, Span(2, -1), 0, 2);
    FirstPass(stop, p, l0, 2);
    EasyGives(To(stop), 16, 2, 2, n, Trial(None, n));
    assert m2.(pm := SetSo(m2.pm, 3, 2)) == n && n.(pm := SetSo(n.pm, 3, -1)) == m2;
    OpenGives(To(stop), 15, 2, 2, m2, Trial(None, n), Trial(None, m2));
    assert m2.(last := Put(m2.last, 2, 2)) == m2 == m1.(last := Put(m1.last, 2, 2))
      && m.(last := Put(m.last, 2, 1)) == m1;
    EnterGives(To(stop), 14, 2, 1, m2, Trial(None, m2));
    QuestGives(To(stop), 13, 2, 1, m2, Trial(None, m2), v);
    EasyGives(To(stop), 12, 2, 1, m2, v);
    EasyGives(To(stop), 10, 2, 2, m2, Trial(None, m2));
    AgainGives(To(stop), 11, 2, 2, m1, Trial(None, m2), v);
    EasyGives(To(stop), 10, 1, 2, m1, v);
    EnterGives(To(stop), 9, 1, 1, m, v);
  }

  /** With (ab)* taking the ab: at 3, where the second x is, the loop is left for good, because that is the
      place the loop over b has noted. */
  lemma {:induction false} Stale(stop: nat, p: Span, l0: nat, c3: Span)
    requires Apt(stop)
    ensures var m := M(p, l0, Span(0, -1), c3, 3, 3); Gives(To(stop), 21, 3, 1, m, Trial(None, m))
  {
    hide Gives, LoopsConsume;
    var m, n := M(p, l0, Span(0, -1), c3, 3, 3), M(p, l0, Span(0, 3), c3, 3, 3);
    EasyGives(To(stop), 24, 3, 1, n, Trial(None, n));
    assert n.(last := Put(n.last, 1, 3)) == n;
    EnterGives(To(stop), 23, 3, 0, n, Trial(None, n));
    LeaveGives(To(stop), 22, 3, 1, n, Trial(None, n));
    assert m.(pm := SetEo(m.pm, 2, 3)) == n && n.(pm := SetEo(n.pm, 2, -1)) == m;
    CloseGives(To(stop), 21, 3, 1, m, Trial(None, n), Trial(None, m));
  }

  lemma {:induction false} AfterAB(stop: nat, p: Span, l0: nat)
    requires Apt(stop)
    ensures Gives(To(stop), 19, 3, 2, M(p, l0, Span(0, -1), Span(1, 3), 3, 1),
                  Trial(None, M(p, l0, Span(0, -1), Span(1, 3), 3, 3)))
  {
    hide Gives, LoopsConsume;
    var c := Span(0, -1);
    var m1, m3, n := M(p, l0, c, Span(1, 3), 3, 1), M(p, l0, c, Span(1, 3), 3, 3), M(p, l0, c, Span(3, 3), 3, 3);
    EasyGives(To(stop), 16, 3, 2, n, Trial(None, n));
    assert m3.(pm := SetSo(m3.pm, 3, 3)) == n && n.(pm := SetSo(n.pm, 3, 1)) == m3;
    OpenGives(To(stop), 15, 3, 2, m3, Trial(None, n), Trial(None, m3));
    Stale(stop, p, l0, Span(1, 3));
    EasyGives(To(stop), 20, 3, 1, m3, Trial(None, m3));
    assert m1.(last := Put(m1.last, 2, 3)) == m3;
    AgainGives(To(stop), 19, 3, 2, m1, Trial(None, m3), Trial(None, m3));
  }

  lemma {:induction false} TakingAB(stop: nat, p: Span, l0: nat)
    requires Apt(stop)
    ensures Gives(To(stop), 14, 1, 1, M(p, l0, Span(0, -1), UNSET, 3, 2),
            Trial(None, M(p, l0, Span(0, -1), UNSET, 3, 3)))
  {
    hide Gives, LoopsConsume;
    var c := Span(0, -1);
    var m2, m1, m3 := M(p, l0, c, UNSET, 3, 2), M(p, l0, c, UNSET, 3, 1), M(p, l0, c, UNSET, 3, 3);
    var n, o := M(p, l0, c, Span(1, -1), 3, 1), M(p, l0, c, Span(1, -1), 3, 3);
    AfterAB(stop, p, l0);
    var n3, o3 := M(p, l0, c, Span(1, 3), 3, 1), M(p, l0, c, Span(1, 3), 3, 3);
    assert n.(pm := SetEo(n.pm, 3, 3)) == n3 && o3.(pm := SetEo(o3.pm, 3, -1)) == o;
    CloseGives(To(stop), 18, 3, 2, n, Trial(None, o3), Trial(None, o));
    EasyGives(To(stop), 17, 2, 2, n, Trial(None, o));
    EasyGives(To(stop), 16, 1, 2, n, Trial(None, o));
    assert m1.(pm := SetSo(m1.pm, 3, 1)) == n && o.(pm := SetSo(o.pm, 3, -1)) == m3;
    OpenGives(To(stop), 15, 1, 2, m1, Trial(None, o), Trial(None, m3));
    assert m2.(last := Put(m2.last, 2, 1)) == m1;
    EnterGives(To(stop), 14, 1, 1, m2, Trial(None, m3));
  }

  lemma {:induction false} TakingNone(stop: nat, p: Span, l0: nat)
    requires Apt(stop)
    ensures Gives(To(stop), 21, 1, 1, M(p, l0, Span(0, -1), UNSET, 3, 3),
            Trial(None, M(p, l0, Span(0, -1), UNSET, 1, 3)))
  {
    hide Gives, LoopsConsume;
    var c := Span(0, 1);
    var m3, m1 := M(p, l0, c, UNSET, 3, 3), M(p, l0, c, UNSET, 1, 3);
    NoPass(stop, 1, p, l0, c, UNSET, 1, 3);
    EasyGives(To(stop), 24, 1, 1, m1, Trial(None, m1));
    assert m1.(last := Put(m1.last, 1, 1)) == m1 == m3.(last := Put(m3.last, 1, 1));
    EnterGives(To(stop), 23, 1, 0, m1, Trial(None, m1));
    AgainGives(To(stop), 22, 1, 1, m3, Trial(None, m1), Trial(None, m1));
    var m, n := M(p, l0, Span(0, -1), UNSET, 3, 3), M(p, l0, Span(0, -1), UNSET, 1, 3);
    assert m.(pm := SetEo(m.pm, 2, 1)) == m3 && m1.(pm := SetEo(m1.pm, 2, -1)) == n;
    CloseGives(To(stop), 21, 1, 1, m, Trial(None, m1), Trial(None, n));
  }

  lemma {:induction false} AfterX(stop: nat, p: Span, l0: nat, l2: nat)
    requires Apt(stop)
    ensures Gives(To(stop), 8, 1, 1, M(p, l0, Span(0, -1), UNSET, 0, l2), Done(stop, p, l0, 1, 3))
  {
    hide Gives, LoopsConsume;
    TakingA(stop, p, l0, l2);
    TakingAB(stop, p, l0);
    TakingNone(stop, p, l0);
    var v := Done(stop, p, l0, 1, 3);
    var m2, m3 := M(p, l0, Span(0, -1), UNSET, 3, 2), M(p, l0, Span(0, -1), UNSET, 3, 3);
    if stop != 3 { QuestGives(To(stop), 13, 1, 1, m2, Trial(None, m3), v); }
    QuestGives(To(stop), 8, 1, 1, M(p, l0, Span(0, -1), UNSET, 0, l2), Done(stop, p, l0, 3, 2), v);
  }

  lemma {:induction false} FromLoop(stop: nat, p: Span, l0: nat, l1: nat, l2: nat)
    requires Apt(stop)
    ensures Gives(To(stop), 5, 0, 0, M(p, l0, UNSET, UNSET, l1, l2),
                  if stop == 3 then Done(3, p, l0, 1, 3) else Trial(None, M(p, l0, UNSET, UNSET, 1, 3)))
  {
    hide Gives, LoopsConsume;
    AfterX(stop, p, l0, l2);
    var m, m0, n := M(p, l0, UNSET, UNSET, l1, l2), M(p, l0, UNSET, UNSET, 0, l2), M(p, l0, Span(0, -1), UNSET, 0, l2);
    var v, o := Done(stop, p, l0, 1, 3), M(p, l0, UNSET, UNSET, 1, 3);
    EasyGives(To(stop), 7, 0, 1, n, v);
    assert m0.(pm := SetSo(m0.pm, 2, 0)) == n && (stop != 3 ==> v.mem.(pm := SetSo(v.mem.pm, 2, -1)) == o);
    var w := if stop == 3 then v else Trial(None, o);
    OpenGives(To(stop), 6, 0, 1, m0, v, w);
    assert m.(last := Put(m.last, 1, 0)) == m0;
    EnterGives(To(stop), 5, 0, 0, m, w);
  }

  lemma {:induction false} BackAt3()
    ensures FindBack(CODE, 3, 1) == Some(4)
  {
    hide FindBack;
    FindBackIs(CODE, 3, 4, 1);
  }

  /** Past the back reference to the first group, which is empty. */
  lemma {:induction false} PastBack(stop: nat, m: Memory, v: Trial)
    requires Apt(stop) && |m.pm| == 4 && m.pm[1] == Span(0, 0) && Gives(To(stop), 5, 0, 0, m, v)
    ensures Gives(To(stop), 3, 0, 0, m, v)
  {
    hide Gives, LoopsConsume, FindBack;
    BackAt3();
    assert XABXB.text[0..0] == [];
    BackGives(To(stop), 3, 0, 0, m, 4, v);
  }

  /** Through the first group. */
  lemma {:induction false} ThroughFirst(stop: nat, mem: Memory, m: Memory, v: Trial) returns (w: Trial)
    requires Apt(stop) && Clean(mem.pm, 3) && m == mem.(pm := mem.pm[1 := Span(0, 0)]) && |v.mem.pm| == 4
    requires Gives(To(stop), 3, 0, 0, m, v)
    ensures Gives(To(stop), 1, 0, 0, mem, w) && (w.end.Some? <==> v.end.Some?)
  {
    hide Gives, LoopsConsume, FindBack;
    var m2 := mem.(pm := SetSo(mem.pm, 1, 0));
    assert m2.(pm := SetEo(m2.pm, 1, 0)) == m;
    var v2 := if v.end.Some? then v else Trial(None, v.mem.(pm := SetEo(v.mem.pm, 1, m2.pm[1].eo)));
    CloseGives(To(stop), 2, 0, 0, m2, v, v2);
    w := if v.end.Some? then v else Trial(None, v2.mem.(pm := SetSo(v2.mem.pm, 1, mem.pm[1].so)));
    OpenGives(To(stop), 1, 0, 0, mem, v2, w);
  }

  /** From the beginning, backtracking gets to 3, and neither to 4 nor to 5. */
  lemma {:induction false} OnlyTo3(stop: nat, mem: Memory)
    requires Apt(stop) && Clean(mem.pm, 3) && |mem.last| == 3
    ensures Wins(To(stop), 1, 0, 0, mem) <==> stop == 3
  {
    hide Gives, LoopsConsume, FindBack, Wins;
    var p, l0, l1, l2 := mem.pm[0], mem.last[0], mem.last[1], mem.last[2];
    FromLoop(stop, p, l0, l1, l2);
    var m := M(p, l0, UNSET, UNSET, l1, l2);
    var v := if stop == 3 then Done(3, p, l0, 1, 3) else Trial(None, M(p, l0, UNSET, UNSET, 1, 3));
    PastBack(stop, m, v);
    assert m == mem.(pm := mem.pm[1 := Span(0, 0)]);
    var w := ThroughFirst(stop, mem, m, v);
    WinsIs(stop, mem, w);
  }

  lemma {:induction false} WinsIs(stop: nat, mem: Memory, v: Trial)
    requires Apt(stop) && Gives(To(stop), 1, 0, 0, mem, v)
    ensures Wins(To(stop), 1, 0, 0, mem) <==> v.end.Some?
  {
    hide LoopsConsume;
  }

  // ----- the match that is missed -----

  /** x, then xb: the second pass and what follows. */
  lemma {:induction false} SecondPassLeads(pm: seq<Span>)
    requires Apt(5) && |pm| == 4
    ensures PathOn(To(5), Point(6, 3, pm))
  {
    hide PathOn, LoopsConsume, ChEnd;
    var g, p1, p2 := To(5), SetSo(pm, 2, 3), SetEo(SetSo(pm, 2, 3), 2, 4);
    PathEnds(g, 5, p2);
    OnPath(g, Point(25, 5, p2), Point(26, 5, p2));
    OnPath(g, Point(24, 4, p2), Point(25, 5, p2));
    OnPath(g, Point(23, 4, p2), Point(24, 4, p2));
    OnPath(g, Point(22, 4, p2), Point(23, 4, p2));
    OnPath(g, Point(21, 4, p1), Point(22, 4, p2));
    OnPath(g, Point(13, 4, p1), Point(21, 4, p1));
    OnPath(g, Point(8, 4, p1), Point(13, 4, p1));
    OnPath(g, Point(7, 3, p1), Point(8, 4, p1));
    OnPath(g, Point(6, 3, pm), Point(7, 3, p1));
  }

  /** ab, and the end of the first pass. */
  lemma {:induction false} FirstPassLeads(pm: seq<Span>)
    requires Apt(5) && |pm| == 4
    ensures PathOn(To(5), Point(8, 1, pm))
  {
    hide PathOn, LoopsConsume, ChEnd;
    var g, p1, p2 := To(5), SetSo(pm, 3, 1), SetEo(SetSo(pm, 3, 1), 3, 3);
    var p3 := SetEo(p2, 2, 3);
    SecondPassLeads(p3);
    OnPath(g, Point(22, 3, p3), Point(6, 3, p3));
    OnPath(g, Point(21, 3, p2), Point(22, 3, p3));
    OnPath(g, Point(20, 3, p2), Point(21, 3, p2));
    OnPath(g, Point(19, 3, p2), Point(20, 3, p2));
    OnPath(g, Point(18, 3, p1), Point(19, 3, p2));
    OnPath(g, Point(17, 2, p1), Point(18, 3, p1));
    OnPath(g, Point(16, 1, p1), Point(17, 2, p1));
    OnPath(g, Point(15, 1, pm), Point(16, 1, p1));
    OnPath(g, Point(14, 1, pm), Point(15, 1, pm));
    OnPath(g, Point(13, 1, pm), Point(14, 1, pm));
    OnPath(g, Point(8, 1, pm), Point(13, 1, pm));
  }

  lemma {:induction false} AllLeads(pm: seq<Span>)
    requires Apt(5) && |pm| == 4
    ensures PathOn(To(5), Point(1, 0, pm))
  {
    hide PathOn, LoopsConsume, ChEnd, FindBack;
    BackAt3();
    var g, p1 := To(5), SetSo(pm, 1, 0);
    var p2 := SetEo(p1, 1, 0);
    var p3 := SetSo(p2, 2, 0);
    FirstPassLeads(p3);
    OnPath(g, Point(7, 0, p3), Point(8, 1, p3));
    OnPath(g, Point(6, 0, p2), Point(7, 0, p3));
    OnPath(g, Point(5, 0, p2), Point(6, 0, p2));
    assert XABXB.text[0..0] == [];
    OnPath(g, Point(3, 0, p2), Point(5, 0, p2));
    OnPath(g, Point(2, 0, p1), Point(3, 0, p2));
    OnPath(g, Point(1, 0, pm), Point(2, 0, p1));
  }

  // ----- what matcher reports -----

  lemma {:induction false} BodyLang()
    ensures Lang(XABXB, BODY, At(0, false), At(2, false))
  {
    var x, a, b, c := XABXB, At(0, false), At(1, false), At(2, false);
    var some, rest := Star(Sym(Chr('a'))), Star(Group(3, Cat(Sym(Chr('a')), Sym(Chr('b')))));
    assert Lang(x, Sym(Chr('x')), a, b) && Lang(x, Sym(Chr('a')), b, c);
    OneMore(Sym(Chr('a')), b, c);
    StarLang(x, rest.e, c, c);
    hide Lang;
    CatLang(x, some, rest, b, c, c);
    CatLang(x, Sym(Chr('x')), Cat(some, rest), a, b, c);
  }

  lemma {:induction false} OneMore(d: Expr, a: At, b: At)
    requires Lang(XABXB, d, a, b)
    ensures Lang(XABXB, Star(d), a, b) && Lang(XABXB, Some1(d), a, b)
  {
    hide Lang;
    LangIsIn(XABXB, d, a, b);
    CodeGen.OneTime(XABXB, d, a, b);
    Some1Lang(XABXB, d, 1, a, b);
  }

  lemma {:induction false} ShortMatches()
    ensures Spans(XABXB, STALE, 0, 3)
  {
    var x, a, c, d := XABXB, At(0, false), At(2, false), At(3, false);
    BodyLang();
    assert Lang(x, Sym(Chr('b')), c, d);
    GroupLang(x, 2, BODY, a, c);
    OneMore(Group(2, BODY), a, c);
    OneMore(Sym(Chr('b')), c, d);
    hide Lang, Emit;
    CatLang(x, Some1(Group(2, BODY)), Some1(Sym(Chr('b'))), a, c, d);
    EmitAlone(x, TAIL, a, d);
    Before(a, d);
  }

  lemma {:induction false} Before(a: At, d: At)
    requires Match(XABXB, Emit(TAIL, Eps), a, d)
    ensures Match(XABXB, STALE, a, d)
  {
    hide Emit;
    Thompson.MatchIsIn(XABXB, Emit(TAIL, Eps), a, d);
    assert Match(XABXB, Eps, a, a);
    assert Match(XABXB, Back(1, Eps, Emit(TAIL, Eps)), a, d);
    assert Match(XABXB, Leaf(RParen(1), Back(1, Eps, Emit(TAIL, Eps))), a, d);
  }

  ghost predicate Struct(g: Guts) {
    g.strip == CODE && g.sets == [] && !g.newline && !g.nosub && g.firststate == 0 && g.laststate == 26 && g.nsub == 3
    && g.backrefs && g.nplus == 2
  }

  lemma {:induction false} Verdicts(g: Guts)
    requires Struct(g)
    ensures LoopsConsume(CODE) && Always(XABXB, g, 0, 3, true) && Always(XABXB, g, 0, 4, false)
    ensures Always(XABXB, g, 0, 5, false)
  {
    StaleConsumes();
    hide LoopsConsume;
    forall mem: Memory, stop: nat | Tables(mem, g) && 3 <= stop <= 5
      ensures Succeeds(XABXB, g, 0, stop, mem) <==> stop == 3
    {
      OnlyTo3(stop, mem);
    }
  }

  /** Searching "xabxb" for `\(\)\1\(xa*\(ab\)*\)\{1,\}b\{1,\}`, matcher reports the first three characters,
      although a path with consistent back references takes all five. */
  method StalePassMissed(pmatch: array<Span>) returns (code: Outcome)
    requires pmatch.Length > 0
    modifies pmatch
    ensures code == Outcome.Ok && pmatch[0] == Span(0, 3)
    ensures Apt(5) && forall pm :: Clean(pm, 3) ==> PathOn(To(5), Point(1, 0, pm))
  {
    hide Compiled, LoopsConsume, Spans, Answer, Reports, NoReentry, PathOn, Always, Struct, Laid, Len, Scannable,
      ScanStrip, Depth, Apt, CanAnswer, Clean;
    CodeIsStale();
    CodeIsScannable(CODE, 1, STALE);
    var must := FindMust(CODE, 1);
    var nplus, bad := PlusCount(CODE, STALE);
    var g := Guts(CODE, [], false, false, 0, 26, 0, 0, must, 3, true, nplus);
    StaleIsCompiled(g);
    Verdicts(g);
    StaleIsSafe();
    ShortMatches();
    TextIs();
    ghost var x, s, e, pm;
    code, x, s, e, pm := RunMatcher(g, "xabxb", 1, pmatch, Flags(false, false, false, false), STALE);
    StaleAnswers(g, 1, Flags(false, false, false, false));
    Verdict(x, g, STALE, 1, Flags(false, false, false, false), code, s, e, pm, 3);
    assert pmatch[..][0] == pmatch[0];
    ReportedFirst(pmatch[..], 1, s, e, pm);
    LongerLeads();
  }

  lemma {:induction false} LongerLeads()
    ensures Apt(5) && forall pm :: Clean(pm, 3) ==> PathOn(To(5), Point(1, 0, pm))
  {
    StaleConsumes();
    hide PathOn, LoopsConsume;
    forall pm | Clean(pm, 3)
      ensures PathOn(To(5), Point(1, 0, pm))
    {
      AllLeads(pm);
    }
  }

  lemma {:induction false} TextIs()
    ensures StrLen("xabxb") == 5
  {
    var n := StrLen("xabxb");
    assert forall i :: 0 <= i < 5 ==> "xabxb"[i] != '\0';
  }

  lemma {:induction false} StaleAnswers(g: Guts, nm: nat, flags: Flags)
    requires Struct(g) && LoopsConsume(CODE)
    ensures CanAnswer(XABXB, g, nm, flags)
  {
    hide LoopsConsume;
  }

  lemma {:induction false} StaleIsDeep()
    ensures Depth(STALE) == 2
  {
    var a := Leaf(Chr('a'), Eps);
    var ab := Leaf(LParen(3), Leaf(Chr('a'), Leaf(Chr('b'), Leaf(RParen(3), Eps))));
    var body := Quest(Plus(a, Eps), Quest(Plus(ab, Eps), Leaf(RParen(2), Eps)));
    assert Emit(TAIL, Eps) == Plus(Leaf(LParen(2), Leaf(Chr('x'), body)), Plus(Leaf(Chr('b'), Eps), Eps));
    hide Emit;
    assert Depth(ab) == 0 && Depth(a) == 0;
    assert Depth(body) == 1;
    assert Depth(Emit(TAIL, Eps)) == 2;
  }

  lemma {:induction false} StaleIsCompiled(g: Guts)
    requires g == Guts(CODE, [], false, false, 0, 26, 0, 0, g.must, 3, true, Depth(STALE))
    requires var u := ScanStrip(CODE, 1, [], []); g.must == if u == [] then None else Some(u)
    ensures Compiled(g, STALE) && Struct(g)
  {
    hide Laid, Len, Counted, Mandatory, Depth, WellGrouped, ScanStrip;
    CodeIsStale();
    StaleIsGrouped();
    StaleIsDeep();
    NoAnchors();
    ScanIsMandatory(CODE, 1, STALE);
  }
}
