/** Where a search is left with nowhere to start (include/regex/engine.c, lines 275-278): an example on
    compiled code. */
module Limits {
  import opened Strip
  import opened Text
  import opened Regex
  import opened Simulation
  import opened Captures
  import opened Backtrack
  import opened Levels
  import opened Matching
  import opened Groups
  import opened Compile
  import opened Syntax
  import Thompson

  // ----- nowhere left to start -----

  /** a* */
  const AS: Re := Quest(Plus(Leaf(Chr('a'), Eps), Eps), Eps)

  /** \(x\(a*\)\)*\2 */
  const LOOP: Re := Leaf(LParen(1), Leaf(Chr('x'), Leaf(LParen(2), Quest(Plus(Leaf(Chr('a'), Eps), Eps),
                      Leaf(RParen(2), Leaf(RParen(1), Eps))))))
  const AGAIN: Re := Quest(Plus(LOOP, Eps), Back(2, AS, Eps))

  const CODE: Ops := [OEnd,
    OQuest_(13), OPlus_(11), OLParen(1), OChar('x'), OLParen(2), OQuest_(4), OPlus_(2), OChar('a'), O_Plus(2),
      O_Quest(4),
    ORParen(2), ORParen(1), O_Plus(11), O_Quest(13),
    OBack_(2), OQuest_(4), OPlus_(2), OChar('a'), O_Plus(2), O_Quest(4), O_Back(2),
    OEnd]

  const NIL := Subject("", 0, 0, false, false, false, [])

  lemma {:induction false} AsAt(o: nat, k: Re)
    requires o == 6 || o == 16
    requires Laid(CODE, o + 5, k) && o + 5 + Len(k) <= |CODE|
    ensures Laid(CODE, o, Quest(Plus(Leaf(Chr('a'), Eps), Eps), k))
    ensures Len(Quest(Plus(Leaf(Chr('a'), Eps), Eps), k)) == 5 + Len(k)
  {
    hide Laid, Len;
    var c := Leaf(Chr('a'), Eps);
    Thompson.LenOfEps();
    Thompson.LenOfLeaf(Chr('a'), Eps);
    Thompson.LenOfPlus(c, Eps);
    Thompson.LenOfQuest(Plus(c, Eps), k);
    Thompson.EpsIsLaid(CODE, o + 3);
    Thompson.EpsIsLaid(CODE, o + 4);
    Thompson.JoinLeaf(CODE, o + 2, Chr('a'), Eps);
    Thompson.JoinPlus(CODE, o + 1, c, Eps);
    Thompson.JoinQuest(CODE, o, Plus(c, Eps), k);
  }

  lemma {:induction false} LoopIsLaid()
    ensures Len(LOOP) == 10 && Laid(CODE, 3, LOOP)
  {
    hide Laid, Len;
    var u := Leaf(RParen(1), Eps);
    var t := Leaf(RParen(2), u);
    var q := Quest(Plus(Leaf(Chr('a'), Eps), Eps), t);
    Thompson.LenOfEps();
    Thompson.LenOfLeaf(RParen(1), Eps);
    Thompson.LenOfLeaf(RParen(2), u);
    Thompson.EpsIsLaid(CODE, 13);
    Thompson.JoinLeaf(CODE, 12, RParen(1), Eps);
    Thompson.JoinLeaf(CODE, 11, RParen(2), u);
    AsAt(6, t);
    Thompson.LenOfLeaf(LParen(2), q);
    Thompson.LenOfLeaf(Chr('x'), Leaf(LParen(2), q));
    Thompson.LenOfLeaf(LParen(1), Leaf(Chr('x'), Leaf(LParen(2), q)));
    Thompson.JoinLeaf(CODE, 5, LParen(2), q);
    Thompson.JoinLeaf(CODE, 4, Chr('x'), Leaf(LParen(2), q));
    Thompson.JoinLeaf(CODE, 3, LParen(1), Leaf(Chr('x'), Leaf(LParen(2), q)));
  }

  lemma {:induction false} CodeIsAgain()
    ensures Len(AGAIN) == 21 && Laid(CODE, 1, AGAIN)
  {
    hide Laid, Len;
    Thompson.LenOfEps();
    Thompson.EpsIsLaid(CODE, 22);
    Thompson.EpsIsLaid(CODE, 21);
    AsAt(16, Eps);
    Thompson.LenOfBack(2, AS, Eps);
    Thompson.JoinBack(CODE, 15, 2, AS, Eps);
    LoopIsLaid();
    Thompson.LenOfPlus(LOOP, Eps);
    Thompson.EpsIsLaid(CODE, 14);
    Thompson.JoinPlus(CODE, 2, LOOP, Eps);
    Thompson.LenOfQuest(Plus(LOOP, Eps), Back(2, AS, Eps));
    Thompson.JoinQuest(CODE, 1, Plus(LOOP, Eps), Back(2, AS, Eps));
  }

  lemma {:induction false} NoLoop(s: nat)
    requires s == 3 || s == 8 || s == 18
    ensures !CanLoop(CODE, s)
  {
    var X := if s == 3 then iset{3, 4} else iset{s};
    assert s in X && ZeroClosed(CODE, X);
  }

  lemma {:induction false} CodeConsumes()
    ensures LoopsConsume(CODE)
  {
    NoLoop(8);
    NoLoop(18);
    NoLoop(3);
    hide CanLoop;
  }

  /** Into the loop: the x is not there. */
  lemma {:induction false} NotIntoLoop(mem: Memory)
    requires Clean(mem.pm, 2) && LoopsConsume(CODE)
    ensures Run(NIL, CODE, 0, 22, 2, 0, 0, mem) == Trial(None, mem.(last := Put(mem.last, 1, 0)))
  {
    hide LoopsConsume, Rank, CanLoop;
    RankDown(CODE, 2, 3);
    var m1 := mem.(last := Put(mem.last, 1, 0));
    NotPastX(m1);
  }

  lemma {:induction false} NotPastX(m1: Memory)
    requires |m1.pm| == 3 && LoopsConsume(CODE)
    ensures Run(NIL, CODE, 0, 22, 3, 0, 1, m1) == Trial(None, m1)
  {
    hide LoopsConsume, Rank, CanLoop;
    RankDown(CODE, 3, 4);
    var m2 := m1.(pm := SetSo(m1.pm, 1, 0));
    assert Run(NIL, CODE, 0, 22, 4, 0, 1, m2) == Trial(None, m2);
    assert SetSo(m2.pm, 1, m1.pm[1].so) == m1.pm;
  }

  /** With the loop skipped, the second group is unset, and the back reference fails. */
  lemma {:induction false} RefusesNothing(mem: Memory)
    requires Clean(mem.pm, 2) && LoopsConsume(CODE)
    ensures Run(NIL, CODE, 0, 22, 1, 0, 0, mem).end == None
  {
    hide LoopsConsume, Rank, CanLoop;
    RankDown(CODE, 1, 2);
    RankDown(CODE, 1, 15);
    NotIntoLoop(mem);
    var m1 := mem.(last := Put(mem.last, 1, 0));
    assert !Repeats(NIL, 0, 0, m1.pm[2]);
    assert Run(NIL, CODE, 0, 22, 15, 0, 0, m1) == Trial(None, m1);
  }

  lemma {:induction false} NilMatches()
    ensures Spans(NIL, AGAIN, 0, 0)
  {
    var a := At(0, false);
    assert Match(NIL, Eps, a, a);
    assert Match(NIL, AS, a, a);
    assert Match(NIL, Back(2, AS, Eps), a, a);
    assert Match(NIL, AGAIN, a, a);
  }

  lemma {:induction false} NilMatchFrom()
    ensures MatchFrom(NIL, AGAIN, 0)
  {
    hide Spans;
    NilMatches();
  }

  const G := Guts(CODE, [], false, false, 0, 22, 0, 0, None, 2, true, 2)

  lemma {:induction false} AgainIsCompiled()
    ensures Compiled(G, AGAIN)
  {
    hide Laid, Len, Counted, Depth, WellGrouped;
    CodeIsAgain();
    NoAnchors();
    AgainIsGrouped();
  }

  lemma {:induction false} NoAnchors()
    ensures Counted(CODE, 1, 22, 0, 0)
  {
    assert Where(CODE, 1, 22, OBol) == {} && Where(CODE, 1, 22, OEol) == {};
  }

  lemma {:induction false} AgainIsGrouped()
    ensures WellGrouped(AGAIN, 2) && Depth(AGAIN) == 2
  {
    var a := Star(Sym(Chr('a')));
    var e := Star(Group(1, Cat(Sym(Chr('x')), Group(2, a))));
    assert Emit(e, Back(2, AS, Eps)) == AGAIN && Emit(a, Eps) == AS;
    assert Numbers(e) == {1, 2};
    EmitIsGrouped(e, Back(2, AS, Eps), multiset{}, 2);
    EmitIsGrouped(a, Eps, multiset{}, 2);
    AgainIsDeep();
  }

  lemma {:induction false} AgainIsDeep()
    ensures Depth(AGAIN) == 2
  {
    assert Depth(AS) == 1 && Depth(LOOP) == 1;
  }

  lemma {:induction false} NothingFound(s: nat, e: nat, pm: seq<Span>)
    requires LoopsConsume(CODE)
    ensures !FoundDeep(NIL, G, AGAIN, s, e, pm)
  {
    hide Spans, LoopsConsume, Run, RefusedBeyond, AllRefused, NoReentry;
    if FoundDeep(NIL, G, AGAIN, s, e, pm) {
      var mem: Memory :| Tables(mem, G) && Succeeds(NIL, G, s, e, mem) && Final(NIL, G, s, e, mem) == pm;
      RefusesNothing(mem);
      assert false;
    }
  }

  /** Searching "" for `\(x\(a*\)\)*\2`: fast and slow find the empty match, backref refuses it, and the
      assertion that there is text left to try fails. */
  method NowhereLeft(pmatch: array<Span>) returns (code: Outcome)
    requires pmatch.Length > 0
    modifies pmatch
    ensures code == Failed(278)
  {
    hide Compiled, LoopsConsume, Spans, FoundDeep, FoundPlain, Reports, AllRefused, NoReentry, MatchFrom;
    AgainIsCompiled();
    CodeConsumes();
    NilMatchFrom();
    ghost var x, s, e, pm;
    code, x, s, e, pm := RunMatcher(G, "", 1, pmatch, Flags(false, false, false, false), AGAIN);
    NothingFound(s, e, pm);
  }
}
