/** Where backtracking misses a match because of its own test for ^ (include/regex/engine.c, lines 534-540): an
    example on compiled code. At the end of a text that ends in a newline a line begins, for fast and slow but not
    for backref. */
module AnchorLimit {
  import opened Strip
  import opened Text
  import opened Regex
  import opened Simulation
  import opened Captures
  import opened Backtrack
  import opened BackrefSound
  import opened BackrefExact
  import opened Consuming
  import opened Levels
  import opened Matching
  import opened Must
  import opened Compile
  import opened Chains
  import opened AnchorTests
  import opened Replay
  import Thompson

  /** \(a\)\1, a newline, and \(^\) */
  const HAT: Re := Leaf(LParen(2), Leaf(Atom.Bol, Leaf(RParen(2), Eps)))
  const LINES: Re := Leaf(LParen(1), Leaf(Chr('a'), Leaf(RParen(1),
                       Back(1, Leaf(Chr('a'), Eps), Leaf(Chr('\n'), HAT)))))

  const CODE: Ops := [OEnd,
    OLParen(1), OChar('a'), ORParen(1), OBack_(1), OChar('a'), O_Back(1), OChar('\n'),
    OLParen(2), OBol, ORParen(2),
    OEnd]

  /** With REG_NEWLINE. */
  const LINE := Subject("aa\n", 0, 3, true, false, false, [])

  ghost const GOAL := Goal(LINE, CODE, 3, 11)

  /** The code is what regcomp emits. */
  lemma {:induction false} CodeIsLines()
    ensures Laid(CODE, 1, LINES) && Len(LINES) == 10
  {
    hide Laid;
    var k := Back(1, Leaf(Chr('a'), Eps), Leaf(Chr('\n'), HAT));
    assert Layout(HAT) == CODE[8..11];
    assert Layout(k) == CODE[4..11];
    assert Layout(LINES) == CODE[1..11];
    Thompson.LayoutIsLaid(CODE, 1, LINES);
  }

  lemma {:induction false} ItConsumes()
    ensures LoopsConsume(CODE)
  {
    hide CanLoop;
  }

  lemma {:induction false} ItIsTrusted()
    ensures Trusted(LINES) && InTable(LINES, 3) && Depth(LINES) == 0
  {
    HatIsTrusted();
    hide Chain;
    var k := Back(1, Leaf(Chr('a'), Eps), Leaf(Chr('\n'), HAT));
    assert Trusted(k) && InTable(k, 3) && Depth(k) == 0;
  }

  lemma {:induction false} HatIsTrusted()
    ensures Trusted(HAT) && InTable(HAT, 3) && Depth(HAT) == 0
  {
    hide Chain;
  }

  lemma {:induction false} ItIsGrouped()
    ensures WellGrouped(LINES, 2)
  {
    BackIsGrouped();
    assert multiset{1} - multiset{1} == multiset{};
    hide HAT;
  }

  lemma {:induction false} BackIsGrouped()
    ensures Opened(Back(1, Leaf(Chr('a'), Eps), Leaf(Chr('\n'), HAT)), multiset{}, 2) == Some(multiset{})
  {
    HatIsGrouped();
    hide HAT;
  }

  lemma {:induction false} HatIsGrouped()
    ensures Opened(HAT, multiset{}, 2) == Some(multiset{})
  {
    assert multiset{2} - multiset{2} == multiset{};
  }

  lemma {:induction false} Anchors()
    ensures Counted(CODE, 1, 11, 1, 0)
  {
    assert Where(CODE, 1, 11, OBol) == {9} && Where(CODE, 1, 11, OEol) == {};
  }

  // ----- nothing is accepted -----

  /** Where the moves of backtracking lead: not past the ^. */
  ghost predicate Before(p: Point) {
    p.ss <= 9 && (p.ss >= 8 ==> p.sp == 3)
  }

  lemma {:induction false} StaysBefore(stop: nat, c: Point, d: Point)
    requires stop <= 3 && Before(c) && Hop(LINE, CODE, stop, c, d)
    ensures Before(d)
  {
    hide FindBack, Repeats;
    FindBackIs(CODE, 4, 6, 1);
  }

  lemma {:induction false} NoPathThere(stop: nat, sp: nat, pm: seq<Span>)
    requires Goal(LINE, CODE, stop, 11).Valid()
    ensures !PathOn(Goal(LINE, CODE, stop, 11), Point(1, sp, pm))
  {
    hide Hop, LoopsConsume;
    var X := iset p: Point | Before(p);
    forall c, d | c in X && Hop(LINE, CODE, stop, c, d)
      ensures d in X
    {
      StaysBefore(stop, c, d);
    }
    assert Point(1, sp, pm) in X;
    assert PointClosed(LINE, CODE, stop, X);
    hide PathOn, PointClosed, Leads;
    LeadsWithin(Goal(LINE, CODE, stop, 11), Point(1, sp, pm), X);
  }

  lemma {:induction false} NeverAccepted(g: Guts, s: nat, e: nat, mem: Memory)
    requires Struct(g) && LoopsConsume(CODE) && s <= e <= 3 && Tables(mem, g)
    ensures !Succeeds(LINE, g, s, e, mem)
  {
    hide LoopsConsume, PathOn, Laid, Len, Trusted, Depth, Opened;
    var goal := Goal(LINE, CODE, e, 11);
    CodeIsLines();
    ItIsTrusted();
    BacktrackingIsExact(goal, 1, LINES, s, mem);
    NoPathThere(e, s, mem.pm);
  }

  // ----- but there is a match -----

  lemma {:induction false} OnWalk(c: Place, d: Place)
    requires GOAL.Valid() && Walk(LINE, CODE, 3, c, d) && WalkOn(GOAL, d)
    ensures WalkOn(GOAL, c)
  {
    hide Walk, LoopsConsume;
    var e: Place :| e.ss == 11 && e.at.p == 3 && Walks(LINE, CODE, 3, d, e);
    forall X: iset<Place> | c in X && WalkClosed(LINE, CODE, 3, X)
      ensures e in X
    {
      assert d in X;
    }
    assert Walks(LINE, CODE, 3, c, e);
  }

  lemma {:induction false} Arrive(pm: seq<Span>)
    requires GOAL.Valid()
    ensures WalkOn(GOAL, Place(11, At(3, false), pm))
  {
    hide Walk, LoopsConsume;
    var e := Place(11, At(3, false), pm);
    assert Walks(LINE, CODE, 3, e, e);
  }

  /** The beginning of a line, behind the newline. */
  lemma {:induction false} HatThere(pm: seq<Span>)
    requires GOAL.Valid() && |pm| == 3
    ensures WalkOn(GOAL, Place(8, At(3, false), pm))
  {
    hide LoopsConsume, FindBack, WalkOn, ChEnd, Repeats;
    var p1, a := SetSo(pm, 2, 3), At(3, false);
    var p2 := SetEo(p1, 2, 3);
    Arrive(p2);
    OnWalk(Place(10, a, p1), Place(11, a, p2));
    OnWalk(Place(9, a, p1), Place(10, a, p1));
    OnWalk(Place(8, a, pm), Place(9, a, p1));
  }

  /** a again, and the newline. */
  lemma {:induction false} AgainThere(pm: seq<Span>)
    requires GOAL.Valid() && |pm| == 3 && pm[1] == Span(0, 1)
    ensures WalkOn(GOAL, Place(4, At(1, false), pm))
  {
    hide LoopsConsume, FindBack, WalkOn, ChEnd;
    FindBackIs(CODE, 4, 6, 1);
    assert LINE.text[1..2] == LINE.text[0..1];
    HatThere(pm);
    OnWalk(Place(7, At(2, false), pm), Place(8, At(3, false), pm));
    OnWalk(Place(4, At(1, false), pm), Place(7, At(2, false), pm));
  }

  /** And before it a, for the group. */
  lemma {:induction false} WayThere(pm: seq<Span>)
    requires GOAL.Valid() && |pm| == 3
    ensures WalkOn(GOAL, Place(1, At(0, false), pm))
  {
    hide LoopsConsume, FindBack, WalkOn, ChEnd, Repeats;
    var p1 := SetSo(pm, 1, 0);
    var p2 := SetEo(p1, 1, 1);
    AgainThere(p2);
    OnWalk(Place(3, At(1, false), p1), Place(4, At(1, false), p2));
    OnWalk(Place(2, At(0, false), p1), Place(3, At(1, false), p1));
    OnWalk(Place(1, At(0, false), pm), Place(2, At(0, false), p1));
  }

  lemma {:induction false} AllWays()
    ensures GOAL.Valid() && forall pm :: Clean(pm, 2) ==> WalkOn(GOAL, Place(1, At(0, false), pm))
  {
    ItConsumes();
    hide WalkOn, LoopsConsume;
    forall pm | Clean(pm, 2)
      ensures WalkOn(GOAL, Place(1, At(0, false), pm))
    {
      WayThere(pm);
    }
  }

  lemma {:induction false} EndMatches()
    ensures Match(LINE, Leaf(Chr('\n'), HAT), At(2, false), At(3, false))
  {
    var d := At(3, false);
    assert Match(LINE, Leaf(RParen(2), Eps), d, d);
    assert Match(LINE, HAT, d, d);
  }

  lemma {:induction false} AllMatches()
    ensures Spans(LINE, LINES, 0, 3)
  {
    EndMatches();
    hide HAT;
    var a, b, c := Leaf(Chr('a'), Eps), At(1, false), At(2, false);
    assert Match(LINE, a, b, c);
    BackMatches(1, a, Leaf(Chr('\n'), HAT), b, c, At(3, false));
    FrontMatches(Back(1, a, Leaf(Chr('\n'), HAT)), At(3, false));
  }

  lemma {:induction false} FrontMatches(k: Re, d: At)
    requires Match(LINE, k, At(1, false), d)
    ensures Match(LINE, Leaf(LParen(1), Leaf(Chr('a'), Leaf(RParen(1), k))), At(0, false), d)
  {
    Thompson.MatchIsIn(LINE, k, At(1, false), d);
    assert Match(LINE, Leaf(RParen(1), k), At(1, false), d);
    assert Match(LINE, Leaf(Chr('a'), Leaf(RParen(1), k)), At(0, false), d);
  }

  lemma {:induction false} BackMatches(n: nat, b: Re, k: Re, a: At, m: At, c: At)
    requires Match(LINE, b, a, m) && Match(LINE, k, m, c)
    ensures Match(LINE, Back(n, b, k), a, c)
  {
    Thompson.MatchIsIn(LINE, b, a, m);
    Thompson.MatchIsIn(LINE, k, m, c);
  }

  lemma {:induction false} NoneAtEnd()
    ensures !MatchFrom(LINE, LINES, 3)
  {
    hide Match;
    forall i: nat, j: nat | 3 <= i && j <= 3
      ensures !Spans(LINE, LINES, i, j)
    {
      NotAtEnd(At(i, false), At(j, false));
      NotAtEnd(At(i, false), At(j, true));
    }
  }

  lemma {:induction false} NotAtEnd(a: At, b: At)
    requires a.p >= 3
    ensures !Match(LINE, LINES, a, b)
  {
    assert LINES.next == Leaf(Chr('a'), LINES.next.next);
  }

  // ----- what matcher reports -----

  ghost predicate Struct(g: Guts) {
    g.strip == CODE && g.sets == [] && g.newline && !g.nosub && g.firststate == 0 && g.laststate == 11 && g.nsub == 2
    && g.backrefs && g.nplus == 0
  }

  lemma {:induction false} ItIsCompiled(g: Guts)
    requires g == Guts(CODE, [], true, false, 0, 11, 1, 0, g.must, 2, true, Depth(LINES))
    requires var u := ScanStrip(CODE, 1, [], []); g.must == if u == [] then None else Some(u)
    ensures Compiled(g, LINES) && Struct(g)
  {
    hide Laid, Len, Counted, Mandatory, WellGrouped, ScanStrip;
    CodeIsLines();
    ItIsTrusted();
    ItIsGrouped();
    Anchors();
    ScanIsMandatory(CODE, 1, LINES);
  }

  lemma {:induction false} TextIs()
    ensures StrLen("aa\n") == 3
  {
    var n := StrLen("aa\n");
    assert forall i :: 0 <= i < 3 ==> "aa\n"[i] != '\0';
  }

  lemma {:induction false} OnlyMiss(g: Guts, nm: nat, flags: Flags, code: Outcome, s: nat, e: nat, pm: seq<Span>)
    requires Struct(g) && LoopsConsume(CODE) && Answer(LINE, g, LINES, nm, flags, code, s, e, pm) && code != InvArg
    ensures code == NoMatch
  {
    hide LoopsConsume, Spans, AllRefused, FoundPlain, LongestRefused, MatchFrom, Succeeds, Final;
    NoneAtEnd();
    if FoundDeep(LINE, g, LINES, s, e, pm) {
      var mem: Memory :| Tables(mem, g) && Succeeds(LINE, g, s, e, mem) && Final(LINE, g, s, e, mem) == pm;
      NeverAccepted(g, s, e, mem);
    }
  }

  /** Searching "aa" and a newline, with REG_NEWLINE, for `\(a\)\1`, a newline and `\(^\)`, matcher reports no
      match, although all of the text is one, with consistent back references, for the rest of the engine. */
  method AnchorMissed(pmatch: array<Span>) returns (code: Outcome)
    requires pmatch.Length > 0
    modifies pmatch
    ensures code == NoMatch
    ensures Spans(LINE, LINES, 0, 3)
    ensures GOAL.Valid() && forall pm :: Clean(pm, 2) ==> WalkOn(GOAL, Place(1, At(0, false), pm))
  {
    hide Compiled, LoopsConsume, Spans, Answer, Reports, WalkOn, Struct, Laid, Len, Scannable, ScanStrip, Clean;
    CodeIsLines();
    CodeIsScannable(CODE, 1, LINES);
    ItConsumes();
    var must := FindMust(CODE, 1);
    var nplus, bad := PlusCount(CODE, LINES);
    var g := Guts(CODE, [], true, false, 0, 11, 1, 0, must, 2, true, nplus);
    ItIsCompiled(g);
    TextIs();
    AllMatches();
    AllWays();
    ghost var x, s, e, pm;
    code, x, s, e, pm := RunMatcher(g, "aa\n", 1, pmatch, Flags(false, false, false, false), LINES);
    assert x == LINE;
    OnlyMiss(g, 1, Flags(false, false, false, false), code, s, e, pm);
  }
}
