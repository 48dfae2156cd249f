/** Where backtracking accepts what it should not (include/regex/engine.c, lines 640-660): an example on compiled
    code. An alternation stands before a back reference, and the back reference is never looked at. */
module ChoiceLimit {
  import opened Strip
  import opened Text
  import opened Regex
  import opened Simulation
  import opened Captures
  import opened Backtrack
  import opened BackrefSound
  import opened BackrefExact
  import opened Consuming
  import opened Levels
  import opened Matching
  import opened Must
  import opened Syntax
  import opened Compile
  import opened Reentry
  import opened Replay
  import Thompson

  /** \(b*\)a\{0,1\} */
  const FRONT: Expr := Cat(Group(1, Star(Sym(Chr('b')))), Opt(Sym(Chr('a'))))

  /** b* */
  const BS: Re := Quest(Plus(Leaf(Chr('b'), Eps), Eps), Eps)

  /** \(b*\)a\{0,1\}\1 */
  const UNCHECKED: Re := Emit(FRONT, Back(1, BS, Eps))

  const CODE: Ops := [OEnd,
    OLParen(1), OQuest_(4), OPlus_(2), OChar('b'), O_Plus(2), O_Quest(4), ORParen(1),
    OCh_(3), OChar('a'), OOr1(2), OOr2(1), O_Ch(2),
    OBack_(1), OQuest_(4), OPlus_(2), OChar('b'), O_Plus(2), O_Quest(4), O_Back(1),
    OEnd]

  const BA := Subject("ba", 0, 2, false, false, false, [])

  lemma {:induction false} UncheckedIs()
    ensures UNCHECKED ==
      Leaf(LParen(1), Quest(Plus(Leaf(Chr('b'), Eps), Eps), Leaf(RParen(1),
        Choice(Leaf(Chr('a'), Eps), Last(Eps), Back(1, BS, Eps)))))
  {
  }

  /** The code is what regcomp emits. */
  lemma {:induction false} CodeIsUnchecked()
    ensures Laid(CODE, 1, UNCHECKED) && Len(UNCHECKED) == 19
  {
    hide Laid, LaidAlts, Len, LenAlts, Emit;
    UncheckedIs();
    var b, a := Leaf(Chr('b'), Eps), Leaf(Chr('a'), Eps);
    var back := Back(1, BS, Eps);
    var choice := Choice(a, Last(Eps), back);
    Thompson.LenOfEps();
    Thompson.LenOfLeaf(Chr('b'), Eps);
    Thompson.LenOfLeaf(Chr('a'), Eps);
    Thompson.LenOfPlus(b, Eps);
    Thompson.LenOfQuest(Plus(b, Eps), Eps);
    Thompson.LenOfBack(1, BS, Eps);
    Thompson.LenOfLast(Eps);
    Thompson.LenOfChoice(a, Last(Eps), back);
    Thompson.LenOfLeaf(RParen(1), choice);
    Thompson.LenOfQuest(Plus(b, Eps), Leaf(RParen(1), choice));
    Thompson.LenOfLeaf(LParen(1), Quest(Plus(b, Eps), Leaf(RParen(1), choice)));
    BackIsLaid();
    BsIsLaid(2);
    Thompson.EpsIsLaid(CODE, 10);
    Thompson.EpsIsLaid(CODE, 12);
    Thompson.JoinLeaf(CODE, 9, Chr('a'), Eps);
    Thompson.JoinLast(CODE, 11, Eps);
    Thompson.JoinChoice(CODE, 8, a, Last(Eps), back);
    Thompson.JoinLeaf(CODE, 7, RParen(1), choice);
    Thompson.JoinQuest(CODE, 2, Plus(b, Eps), Leaf(RParen(1), choice));
    Thompson.JoinLeaf(CODE, 1, LParen(1), Quest(Plus(b, Eps), Leaf(RParen(1), choice)));
  }

  /** The loop in b*, of the group and of its copy. */
  lemma {:induction false} BsIsLaid(o: nat)
    requires o == 2 || o == 14
    ensures Laid(CODE, o + 1, Plus(Leaf(Chr('b'), Eps), Eps))
  {
    hide Laid, Len;
    var b := Leaf(Chr('b'), Eps);
    Thompson.LenOfEps();
    Thompson.LenOfLeaf(Chr('b'), Eps);
    Thompson.LenOfPlus(b, Eps);
    Thompson.EpsIsLaid(CODE, o + 3);
    Thompson.EpsIsLaid(CODE, o + 4);
    Thompson.JoinLeaf(CODE, o + 2, Chr('b'), Eps);
    Thompson.JoinPlus(CODE, o + 1, b, Eps);
  }

  lemma {:induction false} BackIsLaid()
    ensures Laid(CODE, 13, Back(1, BS, Eps))
  {
    hide Laid, Len;
    var b := Leaf(Chr('b'), Eps);
    Thompson.LenOfEps();
    Thompson.LenOfLeaf(Chr('b'), Eps);
    Thompson.LenOfPlus(b, Eps);
    Thompson.LenOfQuest(Plus(b, Eps), Eps);
    Thompson.LenOfBack(1, BS, Eps);
    BsIsLaid(14);
    Thompson.EpsIsLaid(CODE, 19);
    Thompson.EpsIsLaid(CODE, 20);
    Thompson.JoinQuest(CODE, 14, Plus(b, Eps), Eps);
    Thompson.JoinBack(CODE, 13, 1, BS, Eps);
  }

  lemma {:induction false} LoopsTakeText()
    ensures Consumes(UNCHECKED)
  {
    UncheckedIs();
    hide Emit;
    assert Consumes(BS) && NoBack(1, BS);
    assert Consumes(Choice(Leaf(Chr('a'), Eps), Last(Eps), Back(1, BS, Eps)));
  }

  lemma {:induction false} ItConsumes()
    ensures Consumes(UNCHECKED) && LoopsConsume(CODE)
  {
    hide Emit, Laid, Len, Consumes, LoopsConsume, Within, ChoiceFree, NoChoice;
    LoopsTakeText();
    CodeIsUnchecked();
    assert CODE[0].OEnd? && CODE[20].OEnd?;
    CodeIsFine(CODE, 1, UNCHECKED);
  }

  lemma {:induction false} ItIsSafe()
    ensures NoReentry(CODE, 1, 20)
  {
    UncheckedIs();
    hide Emit;
    assert Safe(BS) && EpsNull(BS);
    assert Safe(Choice(Leaf(Chr('a'), Eps), Last(Eps), Back(1, BS, Eps)));
    CodeIsUnchecked();
    hide Laid, Len, Safe, NoReentry;
    SafeIsNoReentry(CODE, 1, UNCHECKED);
  }

  lemma {:induction false} ItIsGrouped()
    ensures WellGrouped(UNCHECKED, 1) && Depth(UNCHECKED) == 1
  {
    EmitIsGrouped(FRONT, Back(1, BS, Eps), multiset{}, 1);
    assert Emit(Star(Sym(Chr('b'))), Eps) == BS;
    EmitIsGrouped(Star(Sym(Chr('b'))), Eps, multiset{}, 1);
    UncheckedIs();
    hide Emit, Opened;
    EndIsGrouped();
    assert Depth(BS) == 1;
    assert Depth(Choice(Leaf(Chr('a'), Eps), Last(Eps), Back(1, BS, Eps))) == 1;
  }

  lemma {:induction false} EndIsGrouped()
    requires Opened(BS, multiset{}, 1) == Some(multiset{})
    ensures Opened(Back(1, BS, Eps), multiset{}, 1) == Some(multiset{})
  {
    hide Emit;
  }

  // ----- the wrong path is taken for one -----

  ghost const GOAL := Goal(BA, CODE, 2, 20)

  lemma {:induction false} Ends()
    ensures BranchEnd(CODE, 8) == Some(10) && FindBack(CODE, 13, 1) == Some(19) && ChEnd(CODE, 11) == Some(12)
  {
    assert ChEnd(CODE, 12) == Some(12);
    hide FindBack;
    FindBackIs(CODE, 13, 19, 1);
  }

  lemma {:induction false} BranchTaken(m: Memory)
    requires GOAL.Valid()
    ensures Run(BA, CODE, 2, 10, 9, 1, 0, m) == Trial(Some(2), m)
  {
    hide LoopsConsume, Rank, CanLoop, RunBranches;
    assert Run(BA, CODE, 2, 10, 10, 2, 0, m) == Trial(Some(2), m);
    assert EasyStep(BA, CODE, 2, 9, 1) == To(10, 2);
  }

  /** b for the group, and a: the text is at its end, and that is all that is asked. */
  lemma {:induction false} Accepted(mem: Memory)
    requires GOAL.Valid() && Clean(mem.pm, 1) && |mem.last| == 2
    ensures Wins(GOAL, 1, 0, 0, mem)
  {
    hide Gives, LoopsConsume, BranchEnd, FindBack, ChEnd, Wins;
    var m1 := mem.(pm := SetSo(mem.pm, 1, 0));
    var m2 := m1.(last := Put(m1.last, 1, 0));
    var m3 := m2.(last := Put(m2.last, 1, 1));
    var m4 := m3.(pm := SetEo(m3.pm, 1, 1));
    var v := Trial(Some(2), m4);
    AfterGroup(m3, m4);
    EasyGives(GOAL, 4, 1, 1, m3, Trial(None, m3));
    AgainGives(GOAL, 5, 1, 1, m2, Trial(None, m3), v);
    EasyGives(GOAL, 4, 0, 1, m2, v);
    EnterGives(GOAL, 3, 0, 0, m1, v);
    QuestGives(GOAL, 2, 0, 0, m1, v, v);
    OpenGives(GOAL, 1, 0, 0, mem, v, v);
    ItWins(mem, v);
  }

  lemma {:induction false} AfterGroup(m3: Memory, m4: Memory)
    requires GOAL.Valid() && |m3.pm| == 2 && m4 == m3.(pm := SetEo(m3.pm, 1, 1))
    ensures Gives(GOAL, 6, 1, 0, m3, Trial(Some(2), m4))
  {
    hide Gives, LoopsConsume, BranchEnd, FindBack, ChEnd;
    Ends();
    var v := Trial(Some(2), m4);
    BranchTaken(m4);
    ChoiceGives(GOAL, 8, 1, 0, m4, 10, v);
    CloseGives(GOAL, 7, 1, 0, m3, v, v);
    EasyGives(GOAL, 6, 1, 0, m3, v);
  }

  lemma {:induction false} ItWins(mem: Memory, v: Trial)
    requires GOAL.Valid() && Gives(GOAL, 1, 0, 0, mem, v) && v.end.Some?
    ensures Wins(GOAL, 1, 0, 0, mem)
  {
    hide LoopsConsume;
  }

  /** Where paths that begin at 0 can lead. */
  ghost predicate Reachable(p: Point) {
    |p.pm| == 2
    && ((p.ss <= 7 && p.sp <= 1 && (p.ss >= 2 ==> p.pm[1].so == 0))
        || (8 <= p.ss <= 13 && p.sp == 0 && p.pm[1] == Span(0, 0))
        || (8 <= p.ss <= 13 && 1 <= p.sp <= 2 && p.pm[1] == Span(0, 1))
        || (p.ss == 20 && p.sp == 0))
  }

  lemma {:induction false} StaysReachable(c: Point, d: Point)
    requires Reachable(c) && Hop(BA, CODE, 2, c, d) && (c.ss == 1 ==> c.sp == 0)
    ensures Reachable(d) && d.ss != 1
  {
    Ends();
    hide FindBack, ChEnd, BranchEnd;
    assert BA.text[1..2][0] == 'a' && BA.text[0..1][0] == 'b';
  }

  /** No path with consistent back references takes all of the text: neither b nor nothing follows
      itself at its end. */
  lemma {:induction false} NoPathThere(pm: seq<Span>)
    requires GOAL.Valid() && |pm| == 2
    ensures !PathOn(GOAL, Point(1, 0, pm))
  {
    hide Hop, LoopsConsume;
    var X := iset p: Point | Reachable(p) && (p.ss == 1 ==> p.sp == 0);
    forall c, d | c in X && Hop(BA, CODE, 2, c, d)
      ensures d in X
    {
      StaysReachable(c, d);
    }
    assert Point(1, 0, pm) in X && PointClosed(BA, CODE, 2, X);
    hide PathOn, PointClosed, Leads;
    LeadsWithin(GOAL, Point(1, 0, pm), X);
  }

  // ----- what matcher reports -----

  lemma {:induction false} FrontMatches()
    ensures Lang(BA, FRONT, At(0, false), At(2, false))
  {
    var a, b, c := At(0, false), At(1, false), At(2, false);
    var bs, opt := Star(Sym(Chr('b'))), Opt(Sym(Chr('a')));
    assert Lang(BA, Sym(Chr('b')), a, b) && Lang(BA, Sym(Chr('a')), b, c);
    hide Lang;
    CodeGen.OneTime(BA, Sym(Chr('b')), a, b);
    Some1Lang(BA, Sym(Chr('b')), 1, a, b);
    GroupLang(BA, 1, bs, a, b);
    OptLang(BA, Sym(Chr('a')), b, c);
    CatLang(BA, Group(1, bs), opt, a, b, c);
  }

  lemma {:induction false} BackMatches(c: At)
    requires In(BA, c)
    ensures Match(BA, Back(1, BS, Eps), c, c)
  {
    assert Match(BA, Eps, c, c);
    assert Match(BA, BS, c, c);
  }

  lemma {:induction false} AllMatches()
    ensures Spans(BA, UNCHECKED, 0, 2)
  {
    var a, c := At(0, false), At(2, false);
    FrontMatches();
    BackMatches(c);
    hide Lang, Emit, Match;
    assert Means(BA, FRONT, Back(1, BS, Eps), a, c);
    EmitMeans(BA, FRONT, Back(1, BS, Eps), a, c);
  }

  ghost predicate Struct(g: Guts) {
    g.strip == CODE && g.sets == [] && !g.newline && !g.nosub && g.firststate == 0 && g.laststate == 20 && g.nsub == 1
    && g.backrefs && g.nplus == 1
  }

  lemma {:induction false} ItIsCompiled(g: Guts)
    requires g == Guts(CODE, [], false, false, 0, 20, 0, 0, g.must, 1, true, Depth(UNCHECKED))
    requires var u := ScanStrip(CODE, 1, [], []); g.must == if u == [] then None else Some(u)
    ensures Compiled(g, UNCHECKED) && Struct(g)
  {
    hide Laid, Len, Counted, Mandatory, Depth, WellGrouped, ScanStrip, Emit;
    CodeIsUnchecked();
    ItIsGrouped();
    NoAnchors();
    ScanIsMandatory(CODE, 1, UNCHECKED);
  }

  lemma {:induction false} NoAnchors()
    ensures Counted(CODE, 1, 20, 0, 0)
  {
    assert Where(CODE, 1, 20, OBol) == {} && Where(CODE, 1, 20, OEol) == {};
  }

  lemma {:induction false} AlwaysAccepted(g: Guts)
    requires Struct(g)
    ensures LoopsConsume(CODE) && Always(BA, g, 0, 2, true)
  {
    ItConsumes();
    hide LoopsConsume, Emit;
    forall mem: Memory | Tables(mem, g)
      ensures Succeeds(BA, g, 0, 2, mem)
    {
      Accepted(mem);
    }
  }

  lemma {:induction false} TextIs()
    ensures StrLen("ba") == 2
  {
    var n := StrLen("ba");
    assert forall i :: 0 <= i < 2 ==> "ba"[i] != '\0';
  }

  lemma {:induction false} CanSayAnswer(g: Guts, nm: nat, flags: Flags)
    requires Struct(g) && LoopsConsume(CODE)
    ensures CanAnswer(BA, g, nm, flags)
  {
    hide LoopsConsume;
  }

  lemma {:induction false} NoPathAnywhere()
    ensures GOAL.Valid() && forall pm :: Clean(pm, 1) ==> !PathOn(GOAL, Point(1, 0, pm))
  {
    ItConsumes();
    hide PathOn, LoopsConsume, Emit;
    forall pm | Clean(pm, 1)
      ensures !PathOn(GOAL, Point(1, 0, pm))
    {
      NoPathThere(pm);
    }
  }

  /** Searching "ba" for `\(b*\)a\{0,1\}\1`, matcher reports all of the text, although no path with
      consistent back references takes it: what the group has matched does not stand there again. */
  method ChoiceUnchecked(pmatch: array<Span>) returns (code: Outcome)
    requires pmatch.Length > 0
    modifies pmatch
    ensures code == Outcome.Ok && pmatch[0] == Span(0, 2)
    ensures GOAL.Valid() && forall pm :: Clean(pm, 1) ==> !PathOn(GOAL, Point(1, 0, pm))
  {
    hide Compiled, LoopsConsume, Spans, Answer, Reports, NoReentry, PathOn, Always, Struct, Laid, Len, Scannable,
      ScanStrip, Depth, CanAnswer, Clean, Emit;
    CodeIsUnchecked();
    CodeIsScannable(CODE, 1, UNCHECKED);
    var must := FindMust(CODE, 1);
    var nplus, bad := PlusCount(CODE, UNCHECKED);
    var g := Guts(CODE, [], false, false, 0, 20, 0, 0, must, 1, true, nplus);
    ItIsCompiled(g);
    AlwaysAccepted(g);
    ItIsSafe();
    AllMatches();
    TextIs();
    ghost var x, s, e, pm;
    code, x, s, e, pm := RunMatcher(g, "ba", 1, pmatch, Flags(false, false, false, false), UNCHECKED);
    CanSayAnswer(g, 1, Flags(false, false, false, false));
    Verdict(x, g, UNCHECKED, 1, Flags(false, false, false, false), code, s, e, pm, 2);
    assert pmatch[..][0] == pmatch[0];
    ReportedFirst(pmatch[..], 1, s, e, pm);
    NoPathAnywhere();
  }
}
